/** Executable bytes seen as a set of disjoint instructions over a background of traps. */
module CodeLayout {
  import opened Bytes
  import opened Opcodes
  import opened NativeCfg
  import opened BuildNative

  /** The bytes standing at each classified start. */
  type Layout = map<nat, seq<byte>>

  predicate Disjoint(layout: Layout, i: nat, j: nat)
    requires i in layout && j in layout
  {
    i + |layout[i]| <= j || j + |layout[j]| <= i
  }

  ghost predicate Inside(layout: Layout, at: int) {
    exists i :: i in layout && i <= at < i + |layout[i]|
  }

  ghost predicate Placed(layout: Layout, code: seq<byte>) {
    forall i :: i in layout ==> i + |layout[i]| <= |code| && code[i..i + |layout[i]|] == layout[i]
  }

  ghost predicate Separate(layout: Layout) {
    forall i, j :: i in layout && j in layout && i != j ==> Disjoint(layout, i, j)
  }

  ghost predicate TrapsElsewhere(layout: Layout, code: seq<byte>) {
    forall k {:trigger code[k]} :: 0 <= k < |code| && code[k] != 0 ==> Inside(layout, k)
  }

  /** The code holds every instruction of the layout where it belongs, and traps elsewhere. */
  ghost predicate Realises(layout: Layout, code: seq<byte>) {
    Placed(layout, code) && Separate(layout) && TrapsElsewhere(layout, code)
  }

  lemma WriteKeepsPlaced(layout: Layout, code: seq<byte>, at: nat, bytes: seq<byte>)
    requires Placed(layout, code) && Separate(layout) && at in layout && |bytes| == |layout[at]|
    ensures at + |bytes| <= |code| && Placed(layout[at := bytes], Write(code, at, bytes))
  {
    var code' := Write(code, at, bytes);
    forall i | i in layout && i != at ensures i + |layout[i]| <= |code| && code'[i..i + |layout[i]|] == layout[i] {
      assert Disjoint(layout, i, at);
      assert code'[i..i + |layout[i]|] == code[i..i + |layout[i]|];
    }
  }

  lemma WriteKeepsTraps(layout: Layout, code: seq<byte>, at: nat, bytes: seq<byte>)
    requires TrapsElsewhere(layout, code) && at in layout && |bytes| == |layout[at]| && at + |bytes| <= |code|
    ensures TrapsElsewhere(layout[at := bytes], Write(code, at, bytes))
  {
    var layout' := layout[at := bytes];
    var code' := Write(code, at, bytes);
    forall k | 0 <= k < |code'| && code'[k] != 0 ensures Inside(layout', k) {
      if at <= k < at + |bytes| {
        assert at in layout';
      } else {
        assert code'[k] == code[k];
        var i :| i in layout && i <= k < i + |layout[i]|;
        assert i in layout' && |layout'[i]| == |layout[i]|;
      }
    }
  }

  /** Overwriting one whole instruction rewrites one entry of the layout and nothing else. */
  lemma WriteRealises(layout: Layout, code: seq<byte>, at: nat, bytes: seq<byte>)
    requires Realises(layout, code) && at in layout && |bytes| == |layout[at]|
    ensures at + |bytes| <= |code|
    ensures Realises(layout[at := bytes], Write(code, at, bytes))
  {
    WriteKeepsPlaced(layout, code, at, bytes);
    WriteKeepsTraps(layout, code, at, bytes);
    var layout' := layout[at := bytes];
    forall i, j | i in layout' && j in layout' && i != j ensures Disjoint(layout', i, j) {
      assert Disjoint(layout, i, j);
    }
  }

  function Classification(prg: seq<byte>, counts: seq<int>): Layout
    requires |counts| == |prg|
  {
    map i: nat | i < |prg| && Start(counts, i) && Fits(prg, i) :: Patch(prg, i)
  }

  /** What the classifier writes is the layout of its patches. */
  lemma ClassificationRealises(prg: seq<byte>, counts: seq<int>, code: seq<byte>)
    requires |counts| == |prg| && PatchedBelow(prg, counts, code, |prg|)
    ensures Realises(Classification(prg, counts), code)
  {
    var layout := Classification(prg, counts);
    forall i, j | i in layout && j in layout && i != j ensures Disjoint(layout, i, j) {
      assert Alone(prg, counts, i) && Alone(prg, counts, j);
    }
    forall k | 0 <= k < |code| && code[k] != 0 ensures Inside(layout, k) {
      var i: nat :| i < |prg| && Covers(prg, counts, i, k);
      assert i in layout;
    }
  }
}
