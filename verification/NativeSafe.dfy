/** Same-width native substitutions for trapped RAM accesses whose address is
    safe for every 8-bit index (tools/native_safe.py). */
module NativeSafe {
  import opened Bytes
  import opened Opcodes
  import opened NativeCfg
  import opened BuildNative
  import opened CodeLayout

  datatype Proof = ZeroBasePlusIndex | ConstantRamMirror | IndexedRamMirror

  datatype Choice = Misfit | Ordinary | Native(operand: word, proof: Proof)

  predicate OperandFits(operand: int, size: nat) {
    0 <= operand < if size == 3 then 0x1_0000 else if size == 2 then 0x100 else 1
  }

  function Rule(op: Entry, operand: int): (r: Choice)
    ensures r.Misfit? <==> op.Op? && !OperandFits(operand, Length(op.mode))
    ensures r.Native? ==> op.Op? && OperandFits(r.operand, Length(op.mode)) && Length(op.mode) >= 2
  {
    match op
    case Unknown => Ordinary
    case Op(name, mode) =>
      if !OperandFits(operand, Length(mode)) then Misfit
      else if !IsOperation(name) then Ordinary
      else if (mode.ZpX? || mode.ZpY?) && operand == 0 then Native(0, ZeroBasePlusIndex)
      else if mode == Abs && 0x800 <= operand < 0x2000 then Native(operand % 0x800, ConstantRamMirror)
      else if (mode.AbsX? || mode.AbsY?) && 0x800 <= operand <= 0x1F00 && operand % 0x800 <= 0x700 then
        Native(operand % 0x800, IndexedRamMirror)
      else Ordinary
  }

  function Replacement(opcode: byte, operand: int): Choice {
    Rule(Lookup(opcode), operand)
  }

  /** The opcode followed by its little-endian operand. */
  function Encoded(opcode: byte, operand: word): (r: seq<byte>)
    requires OperandFits(operand, Size(opcode)) && Known(opcode)
    ensures |r| == Size(opcode)
  {
    if Size(opcode) == 3 then [opcode, operand % 0x100, operand / 0x100]
    else if Size(opcode) == 2 then [opcode, operand]
    else [opcode]
  }

  function Choose(prg: seq<byte>, i: nat): (r: Choice)
    requires Fits(prg, i)
    ensures !r.Misfit?
  {
    Replacement(prg[i], OperandAt(prg, i))
  }

  function Substituted(prg: seq<byte>, i: nat): (r: seq<byte>)
    requires Fits(prg, i) && Choose(prg, i).Native?
    ensures |r| == Size(prg[i])
  {
    Encoded(prg[i], Choose(prg, i).operand)
  }

  datatype Error = LengthMismatch | NotClassified

  datatype Outcome = Aborted(error: Error) | Applied(code: seq<byte>, proven: seq<nat>, remaining: seq<nat>)

  ghost predicate Sites(prg: seq<byte>, sites: seq<nat>) {
    forall i <- sites :: Fits(prg, i)
  }

  /** The state of the pass after the given sites. */
  ghost function Applying(prg: seq<byte>, code: seq<byte>, sites: seq<nat>): (r: Outcome)
    requires |code| == |prg| && Sites(prg, sites)
    ensures r.Applied? ==> |r.code| == |code|
  {
    if sites == [] then Applied(code, [], [])
    else
      var last := |sites| - 1;
      match Applying(prg, code, sites[..last])
      case Aborted(e) => Aborted(e)
      case Applied(out, proven, remaining) =>
        var i := sites[last];
        if !Choose(prg, i).Native? then Applied(out, proven, remaining + [i])
        else if code[i..i + 2] != [0x02, prg[i]] then Aborted(NotClassified)
        else Applied(Write(out, i, Substituted(prg, i)), proven + [i], remaining)
  }

  method Apply(prg: seq<byte>, code: seq<byte>, sites: seq<nat>) returns (r: Outcome)
    requires Sites(prg, sites)
    ensures |code| != |prg| ==> r == Aborted(LengthMismatch)
    ensures |code| == |prg| ==> r == Applying(prg, code, sites)
  {
    hide Opcodes.Lookup, Rule, Write;
    if |code| != |prg| {
      return Aborted(LengthMismatch);
    }
    var out := new byte[|code|](i requires 0 <= i < |code| => code[i]);
    var proven: seq<nat>, remaining: seq<nat> := [], [];
    assert out[..] == code;
    for k := 0 to |sites|
      invariant Applying(prg, code, sites[..k]) == Applied(out[..], proven, remaining)
    {
      assert sites[..k + 1][..k] == sites[..k];
      var i := sites[k];
      assert i in sites;
      var choice := Choose(prg, i);
      if !choice.Native? {
        remaining := remaining + [i];
      } else {
        if code[i..i + 2] != [0x02, prg[i]] {
          FailureStays(prg, code, sites, k + 1);
          return Aborted(NotClassified);
        }
        var bytes := Encoded(prg[i], choice.operand);
        Overwrite(out, i, bytes);
        proven := proven + [i];
      }
    }
    assert sites[..|sites|] == sites;
    r := Applied(out[..], proven, remaining);
  }

  lemma {:induction false} FailureStays(prg: seq<byte>, code: seq<byte>, sites: seq<nat>, k: nat)
    requires |code| == |prg| && Sites(prg, sites) && k <= |sites|
    requires Sites(prg, sites[..k]) && Applying(prg, code, sites[..k]).Aborted?
    ensures Applying(prg, code, sites) == Applying(prg, code, sites[..k])
    decreases |sites|
  {
    if k == |sites| {
      assert sites[..k] == sites;
    } else {
      assert sites[..|sites| - 1][..k] == sites[..k];
      FailureStays(prg, code, sites[..|sites| - 1], k);
    }
  }

  function Substitution(prg: seq<byte>, sites: seq<nat>, i: nat): seq<byte>
    requires Fits(prg, i)
  {
    if i in sites && Choose(prg, i).Native? then Substituted(prg, i) else Patch(prg, i)
  }

  function Substitutions(prg: seq<byte>, counts: seq<int>, sites: seq<nat>): Layout
    requires |counts| == |prg|
  {
    map i: nat | i < |prg| && Start(counts, i) && Fits(prg, i) :: Substitution(prg, sites, i)
  }

  lemma SubstitutionsExtend(prg: seq<byte>, counts: seq<int>, sites: seq<nat>, i: nat)
    requires |counts| == |prg| && TrapSite(prg, counts, i)
    ensures Substitutions(prg, counts, sites + [i])
      == if Choose(prg, i).Native? then Substitutions(prg, counts, sites)[i := Substituted(prg, i)]
         else Substitutions(prg, counts, sites)
  {
  }

  /** The sites split into the provable ones and the others, in order. */
  lemma {:induction false} ApplyingSplits(prg: seq<byte>, code: seq<byte>, sites: seq<nat>)
    requires |code| == |prg| && Sites(prg, sites) && Applying(prg, code, sites).Applied?
    ensures var r := Applying(prg, code, sites);
      && (forall i: nat :: i in r.proven <==> i in sites && Choose(prg, i).Native?)
      && (forall i: nat :: i in r.remaining <==> i in sites && !Choose(prg, i).Native?)
      && (Ascending(sites) ==> Ascending(r.proven) && Ascending(r.remaining))
    decreases |sites|
  {
    if sites != [] {
      var last := |sites| - 1;
      var before, i := sites[..last], sites[last];
      assert sites == before + [i];
      ApplyingSplits(prg, code, before);
      var r := Applying(prg, code, before);
      if Ascending(sites) {
        assert forall k :: 0 <= k < last ==> before[k] == sites[k];
        AscendingAppend(if Choose(prg, i).Native? then r.proven else r.remaining, i);
      }
    }
  }

  lemma TrappedStartsWithCop(prg: seq<byte>, counts: seq<int>, code: seq<byte>, i: nat)
    requires |counts| == |code| == |prg| && Placed(Classification(prg, counts), code) && TrapSite(prg, counts, i)
    ensures Size(prg[i]) >= 2 && code[i..i + 2] == [0x02, prg[i]]
  {
    hide Opcodes.Lookup, Intercept;
    PatchSize(prg, i);
    assert Patch(prg, i)[..2] == [0x02, prg[i]];
    var bytes := Classification(prg, counts)[i];
    assert code[i..i + |bytes|] == bytes == Patch(prg, i);
    assert code[i] == bytes[0] && code[i + 1] == bytes[1];
  }

  lemma NothingSubstituted(prg: seq<byte>, counts: seq<int>)
    requires |counts| == |prg|
    ensures Substitutions(prg, counts, []) == Classification(prg, counts)
  {
    hide Opcodes.Lookup, Intercept, Patch;
  }

  lemma RealisesIsPlaced(layout: Layout, code: seq<byte>)
    requires Realises(layout, code)
    ensures Placed(layout, code)
  {}

  lemma SubstitutionPlaced(prg: seq<byte>, counts: seq<int>, sites: seq<nat>, i: nat)
    requires |counts| == |prg| && TrapSite(prg, counts, i) && Choose(prg, i).Native?
    ensures var layout := Substitutions(prg, counts, sites); i in layout && |layout[i]| == |Substituted(prg, i)|
  {
    hide Opcodes.Lookup, Intercept, Patch;
  }

  /** Run on trap sites of a classification, the pass never refuses, and rewrites
      exactly the provable instructions. */
  lemma {:induction false} ApplyingRealises(prg: seq<byte>, counts: seq<int>, code: seq<byte>, sites: seq<nat>)
    requires |counts| == |code| == |prg| && Realises(Classification(prg, counts), code)
    requires Sites(prg, sites) && forall i <- sites :: TrapSite(prg, counts, i)
    ensures Applying(prg, code, sites).Applied?
    ensures Realises(Substitutions(prg, counts, sites), Applying(prg, code, sites).code)
    decreases |sites|
  {
    hide Opcodes.Lookup, Intercept, Patch, Realises, Substitutions, Rule, Substituted, Write;
    if sites == [] {
      NothingSubstituted(prg, counts);
    } else {
      var last := |sites| - 1;
      var before, i := sites[..last], sites[last];
      ApplyingRealises(prg, counts, code, before);
      assert sites == before + [i] && i in sites;
      SubstitutionsExtend(prg, counts, before, i);
      if Choose(prg, i).Native? {
        RealisesIsPlaced(Classification(prg, counts), code);
        TrappedStartsWithCop(prg, counts, code, i);
        SubstitutionPlaced(prg, counts, before, i);
        WriteRealises(Substitutions(prg, counts, before), Applying(prg, code, before).code, i, Substituted(prg, i));
      }
    }
  }
}
