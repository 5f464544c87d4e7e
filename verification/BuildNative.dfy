/** Classification of marked code into executable bytes (classify_patch in
    tools/build_native.py). Unmarked bytes become BRK, which traps. */
module BuildNative {
  import opened Bytes
  import opened Opcodes
  import opened NativeCfg

  /** Memory operations the bridge can emulate. */
  predicate IsOperation(name: Name) {
    || name.LDA? || name.LDX? || name.LDY? || name.STA? || name.STX? || name.STY?
    || name.AND? || name.ORA? || name.EOR? || name.ADC? || name.SBC? || name.CMP? || name.CPX? || name.CPY?
    || name.BIT? || name.ASL? || name.LSR? || name.ROL? || name.ROR? || name.INC? || name.DEC?
  }

  /** The access cannot be left to the 65C816 as it stands. */
  predicate Intercept(op: Entry, address: word) {
    && op.Op? && IsOperation(op.name)
    && (|| op.mode.ZpX? || op.mode.ZpY? || op.mode.IndX? || op.mode.IndY?
        || (&& (op.mode.Abs? || op.mode.AbsX? || op.mode.AbsY?)
            && (|| 0x0800 <= address < 0x8000
                || (op.mode != Abs && (0x0701 <= address < 0x0800 || address >= 0xFF01)))))
  }

  datatype Error =
    | TraceSize
    | UnknownOpcode(at: nat)
    | OverlappingOrTruncated(at: nat)
    | StackTransfer(at: nat)
    | NeedsTranslation(at: nat)
    | IndirectPageWrap(at: nat)

  /** The bytes of the instruction at i hide no other start. */
  predicate Alone(prg: seq<byte>, counts: seq<int>, i: nat)
    requires |counts| == |prg| && i < |prg|
  {
    i + Size(prg[i]) <= |prg| && forall j :: i < j < i + Size(prg[i]) ==> counts[j] == 0
  }

  /** The traced reset loads X with $FF just before TXS. */
  predicate ResetTransfer(prg: seq<byte>, i: nat)
    requires i < |prg|
  {
    i >= 2 && prg[i - 2] == 0xA2 && prg[i - 1] == 0xFF
  }

  function Refusal(prg: seq<byte>, counts: seq<int>, i: nat): (r: Option<Error>)
    requires |counts| == |prg| && i < |prg|
    ensures r != Some(TraceSize)
  {
    if !Known(prg[i]) then Some(UnknownOpcode(i))
    else if !Alone(prg, counts, i) then Some(OverlappingOrTruncated(i))
    else
      var op := Lookup(prg[i]);
      if op.name == TXS then if ResetTransfer(prg, i) then None else Some(StackTransfer(i))
      else if op.name.SED? || op.name.BRK? then Some(NeedsTranslation(i))
      else if op.name == JMP && op.mode == Ind && OperandAt(prg, i) % 0x100 == 0xFF then Some(IndirectPageWrap(i))
      else None
  }

  ghost predicate Acceptable(prg: seq<byte>, counts: seq<int>, bound: nat)
    requires |counts| == |prg|
  {
    forall i: nat {:trigger Start(counts, i)} :: Start(counts, i) && i < bound ==> Refusal(prg, counts, i).None?
  }

  predicate Trapped(prg: seq<byte>, i: nat)
    requires Fits(prg, i)
  {
    Intercept(Lookup(prg[i]), OperandAt(prg, i))
  }

  /** A TXS is one byte long, and every trapped instruction two or three. */
  lemma PatchSize(prg: seq<byte>, i: nat)
    requires Fits(prg, i)
    ensures Lookup(prg[i]).name == TXS ==> Size(prg[i]) == 1
    ensures Trapped(prg, i) ==> Size(prg[i]) >= 2
  {
  }

  /** What the executable copy holds in place of the instruction at i. */
  function Patch(prg: seq<byte>, i: nat): (r: seq<byte>)
    requires Fits(prg, i)
    ensures |r| == Size(prg[i])
  {
    PatchSize(prg, i);
    if Lookup(prg[i]).name == TXS then [0xEA]
    else if Trapped(prg, i) then [0x02, prg[i]] + prg[i + 2..i + Size(prg[i])]
    else prg[i..i + Size(prg[i])]
  }

  predicate Covers(prg: seq<byte>, counts: seq<int>, i: nat, j: int) {
    Start(counts, i) && i < |prg| && i <= j < i + Size(prg[i])
  }

  /** Executable bytes at every start below bound, traps everywhere else. */
  ghost predicate PatchedBelow(prg: seq<byte>, counts: seq<int>, code: seq<byte>, bound: nat) {
    && |code| == |counts| == |prg|
    && (forall i: nat {:trigger Start(counts, i)} :: Start(counts, i) && i < bound ==>
          Fits(prg, i) && Alone(prg, counts, i) && code[i..i + Size(prg[i])] == Patch(prg, i))
    && (forall j {:trigger code[j]} :: 0 <= j < |code| && code[j] != 0 ==>
          exists i: nat :: i < bound && Covers(prg, counts, i, j))
  }

  predicate TrapSite(prg: seq<byte>, counts: seq<int>, i: nat) {
    Start(counts, i) && Fits(prg, i) && Trapped(prg, i)
  }

  predicate TransferSite(prg: seq<byte>, counts: seq<int>, i: nat) {
    Start(counts, i) && Fits(prg, i) && Lookup(prg[i]).name == TXS
  }

  ghost predicate Ascending(sites: seq<nat>) {
    forall k, l :: 0 <= k < l < |sites| ==> sites[k] < sites[l]
  }

  /** Exactly the trapped starts below bound, in ascending order. */
  ghost predicate TrapSites(prg: seq<byte>, counts: seq<int>, sites: seq<nat>, bound: nat) {
    && Ascending(sites)
    && forall i: nat {:trigger i in sites} {:trigger TrapSite(prg, counts, i)} ::
         i in sites <==> i < bound && TrapSite(prg, counts, i)
  }

  ghost predicate TransferSites(prg: seq<byte>, counts: seq<int>, sites: seq<nat>, bound: nat) {
    && Ascending(sites)
    && forall i: nat {:trigger i in sites} {:trigger TransferSite(prg, counts, i)} ::
         i in sites <==> i < bound && TransferSite(prg, counts, i)
  }

  datatype Outcome =
    | Refused(error: Error)
    | Classified(code: seq<byte>, sites: seq<nat>, skipped: seq<nat>)

  /** One classified instruction: the byte range of i receives its patch. */
  method PatchInstruction(prg: seq<byte>, i: nat, patched: array<byte>)
    requires Fits(prg, i) && patched.Length == |prg|
    modifies patched
    ensures patched[..] == Write(old(patched[..]), i, Patch(prg, i))
  {
    hide Opcodes.Lookup, Intercept;
    PatchSize(prg, i);
    var original := prg[i..i + Size(prg[i])];
    Overwrite(patched, i, original);
    if Lookup(prg[i]).name == TXS {
      WriteTwice(old(patched[..]), i, original, [0xEA]);
      Overwrite(patched, i, [0xEA]);
    } else if Trapped(prg, i) {
      WriteTwice(old(patched[..]), i, original, [0x02, prg[i]]);
      assert original[2..] == prg[i + 2..i + Size(prg[i])];
      Overwrite(patched, i, [0x02, prg[i]]);
    }
  }

  lemma ExtendPatched(prg: seq<byte>, counts: seq<int>, code: seq<byte>, i: nat)
    requires PatchedBelow(prg, counts, code, i) && Start(counts, i) && Refusal(prg, counts, i).None?
    ensures Fits(prg, i)
    ensures PatchedBelow(prg, counts, Write(code, i, Patch(prg, i)), i + 1)
  {
    hide Opcodes.Lookup, Patch;
    var n := Size(prg[i]);
    var code' := Write(code, i, Patch(prg, i));
    forall s: nat | Start(counts, s) && s < i + 1
      ensures Fits(prg, s) && Alone(prg, counts, s) && code'[s..s + Size(prg[s])] == Patch(prg, s)
    {
      if s < i {
        assert s + Size(prg[s]) <= i;
        assert code'[s..s + Size(prg[s])] == code[s..s + Size(prg[s])];
      }
    }
    forall j | 0 <= j < |code'| && code'[j] != 0 ensures exists s: nat :: s < i + 1 && Covers(prg, counts, s, j) {
      if i <= j < i + n {
        assert Covers(prg, counts, i, j);
      } else {
        assert code'[j] == code[j];
      }
    }
  }

  lemma AscendingAppend(sites: seq<nat>, i: nat)
    requires Ascending(sites) && forall s <- sites :: s < i
    ensures Ascending(sites + [i])
  {
    assert forall k :: 0 <= k < |sites| ==> sites[k] in sites;
  }

  lemma NothingPatched(prg: seq<byte>, counts: seq<int>, code: seq<byte>)
    requires |code| == |counts| == |prg| && forall j :: 0 <= j < |code| ==> code[j] == 0
    ensures PatchedBelow(prg, counts, code, 0)
  {
  }

  lemma SkipPatched(prg: seq<byte>, counts: seq<int>, code: seq<byte>, i: nat)
    requires PatchedBelow(prg, counts, code, i) && !Start(counts, i)
    ensures PatchedBelow(prg, counts, code, i + 1)
  {
    hide Opcodes.Lookup, Patch;
  }

  method ClassifyPatch(prg: seq<byte>, counts: seq<int>) returns (r: Outcome)
    ensures r == Refused(TraceSize) <==> |counts| != |prg|
    ensures r.Refused? && |counts| == |prg| ==> exists i: nat {:trigger Start(counts, i)} ::
      Start(counts, i) && Refusal(prg, counts, i) == Some(r.error)
      && Acceptable(prg, counts, i)
    ensures r.Classified? ==>
      && |counts| == |prg|
      && Acceptable(prg, counts, |prg|)
      && PatchedBelow(prg, counts, r.code, |prg|)
      && TrapSites(prg, counts, r.sites, |prg|)
      && TransferSites(prg, counts, r.skipped, |prg|)
  {
    hide Opcodes.Lookup, Patch, Refusal, PatchedBelow;
    if |counts| != |prg| {
      return Refused(TraceSize);
    }
    var patched := new byte[|prg|](_ => 0);
    var sites: seq<nat>, skipped: seq<nat> := [], [];
    NothingPatched(prg, counts, patched[..]);
    for i := 0 to |prg|
      invariant Acceptable(prg, counts, i)
      invariant PatchedBelow(prg, counts, patched[..], i)
      invariant TrapSites(prg, counts, sites, i)
      invariant TransferSites(prg, counts, skipped, i)
    {
      if counts[i] == 0 {
        SkipPatched(prg, counts, patched[..], i);
      } else {
        assert Start(counts, i);
        var refusal := Refusal(prg, counts, i);
        if refusal.Some? {
          return Refused(refusal.value);
        }
        ExtendPatched(prg, counts, patched[..], i);
        PatchInstruction(prg, i, patched);
        if Trapped(prg, i) {
          AscendingAppend(sites, i);
          sites := sites + [i];
        }
        if Lookup(prg[i]).name == TXS {
          AscendingAppend(skipped, i);
          skipped := skipped + [i];
        }
      }
    }
    r := Classified(patched[..], sites, skipped);
  }

  /** On a code map, the overlap check of the classifier cannot fire. */
  lemma CodeMapIsAlone(prg: seq<byte>, counts: seq<int>, i: nat)
    requires CodeMap(prg, counts) && Start(counts, i)
    ensures Alone(prg, counts, i)
  {
    forall j | i < j < i + Size(prg[i]) ensures counts[j] == 0 {
      assert !Start(counts, j);
    }
  }
}
