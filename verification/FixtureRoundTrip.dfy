/** The decoder reads back what the assembler wrote. */
module FixtureRoundTrip {
  import opened Bytes
  import opened Opcodes
  import opened NativeFixture
  import opened TimelineDecode

  // ---- what a program means ----

  function SizeOf(item: Item): nat {
    if item.Instruction? then Length(item.mode) else 0
  }

  function Extent(items: seq<Item>): nat {
    if items == [] then 0 else Extent(items[..|items| - 1]) + SizeOf(items[|items| - 1])
  }

  function Address(labels: map<string, int>, name: string): int {
    if name in labels then labels[name] else 0
  }

  /** The operand an instruction at pc should have: a branch holds the displacement of its label,
    * anything else the address. */
  function Meant(item: Item, pc: int, labels: map<string, int>): int
    requires item.Instruction?
  {
    match item.operand
    case Number(value) => if Length(item.mode) == 1 then 0 else value
    case Reference(name) => if item.mode == Rel then (Address(labels, name) - (pc + 2)) % 0x100 else Address(labels, name)
  }

  function Expressed(item: Item, pc: int, labels: map<string, int>): Line
    requires item.Instruction?
  {
    var opcode := match Reverse(item.name, item.mode) case None => 0 case Some(o) => o;
    var value := Meant(item, pc, labels);
    Line(pc, item.name, item.mode, [opcode] + Low(value, Length(item.mode) - 1), value)
  }

  /** The instructions of a program, in order, with every label resolved. */
  function Lines(origin: int, items: seq<Item>, labels: map<string, int>): seq<Line> {
    if items == [] then []
    else
      var before, last := items[..|items| - 1], items[|items| - 1];
      Lines(origin, before, labels)
        + if last.Instruction? then [Expressed(last, origin + Extent(before), labels)] else []
  }

  function Finished(p: Source): (seq<byte>, Option<Failure>)
    requires AllWithin(p.fixups, |p.data|)
  {
    Patched(p.origin, p.labels, p.data, p.fixups)
  }

  // ---- the assembler ----

  lemma AssembledStep(origin: int, items: seq<Item>)
    requires Assembled(origin, items).Some?
    ensures items == [] ==> Assembled(origin, items).value == Empty(origin)
    ensures items != [] ==>
      var q := Assembled(origin, items[..|items| - 1]);
      q.Some? && Placed(q.value, items[|items| - 1]) == (Assembled(origin, items).value, None)
  {
    hide Placed;
  }

  lemma PlacedSize(q: Source, item: Item)
    requires Placed(q, item).1.None?
    ensures var p := Placed(q, item).0; p.origin == q.origin && |p.data| == |q.data| + SizeOf(item)
  {
    hide Reverse;
  }

  lemma {:induction false} AssembledSize(origin: int, items: seq<Item>)
    requires Assembled(origin, items).Some?
    ensures var p := Assembled(origin, items).value;
      p.origin == origin && |p.data| == Extent(items) && AllWithin(p.fixups, |p.data|)
    decreases |items|
  {
    hide Assembled, Placed, AllWithin;
    AssembledStep(origin, items);
    if items != [] {
      var before, last := items[..|items| - 1], items[|items| - 1];
      AssembledSize(origin, before);
      PlacedSize(Assembled(origin, before).value, last);
      PlacedKeepsWithin(Assembled(origin, before).value, last);
    } else {
      EmptyIsWithin(origin);
    }
  }

  lemma EmptyIsWithin(origin: int)
    ensures AllWithin(Empty(origin).fixups, 0)
  {}

  lemma PlacedLabels(q: Source, item: Item)
    requires Placed(q, item).1.None?
    ensures Placed(q, item).0.labels == if item.Mark? then q.labels[item.text := Pc(q)] else q.labels
    ensures item.Mark? ==> item.text !in q.labels && Placed(q, item).0 == q.(labels := Placed(q, item).0.labels)
  {
    hide Reverse;
  }

  /** A mark gives its label the address of what follows it. */
  lemma {:induction false} MarkIsLabel(origin: int, items: seq<Item>, k: nat)
    requires Assembled(origin, items).Some? && k < |items| && items[k].Mark?
    ensures var labels := Assembled(origin, items).value.labels;
      items[k].text in labels && labels[items[k].text] == origin + Extent(items[..k])
    decreases |items|
  {
    hide Assembled, Placed;
    AssembledStep(origin, items);
    var n := |items| - 1;
    var q := Assembled(origin, items[..n]).value;
    PlacedLabels(q, items[n]);
    AssembledSize(origin, items[..n]);
    if k < n {
      assert items[..n][..k] == items[..k];
      MarkIsLabel(origin, items[..n], k);
    }
  }

  /** Every label comes from one mark. */
  lemma {:induction false} LabelIsMark(origin: int, items: seq<Item>, name: string) returns (k: nat)
    requires Assembled(origin, items).Some? && name in Assembled(origin, items).value.labels
    ensures k < |items| && items[k] == Mark(name)
    ensures Assembled(origin, items).value.labels[name] == origin + Extent(items[..k])
    decreases |items|
  {
    hide Assembled, Placed;
    AssembledStep(origin, items);
    var n := |items| - 1;
    var q := Assembled(origin, items[..n]).value;
    PlacedLabels(q, items[n]);
    if name in q.labels {
      k := LabelIsMark(origin, items[..n], name);
      assert items[..n][..k] == items[..k];
    } else {
      k := n;
      AssembledSize(origin, items[..n]);
    }
  }

  /** An operand that can hold its label: a branch, or a two-byte operand. */
  predicate LabelFits(item: Item) {
    item.Instruction? && item.operand.Reference? ==> item.mode == Rel || Length(item.mode) == 3
  }

  predicate AllFit(items: seq<Item>) {
    forall k {:trigger items[k]} :: 0 <= k < |items| ==> LabelFits(items[k])
  }

  predicate Inside(f: Fixup, length: nat) {
    f.at + (if f.mode == Rel then 1 else 2) <= length
  }

  predicate AllInside(fixups: seq<Fixup>, length: nat) {
    forall i {:trigger fixups[i]} :: 0 <= i < |fixups| ==> Inside(fixups[i], length)
  }

  /** Fixups that stay inside a prefix leave the rest alone. */
  lemma {:induction false} PatchedExtends(origin: int, labels: map<string, int>, data: seq<byte>, rest: seq<byte>, fixups: seq<Fixup>)
    requires AllInside(fixups, |data|)
    ensures AllWithin(fixups, |data|) && AllWithin(fixups, |data + rest|)
    ensures var small := Patched(origin, labels, data, fixups);
      |small.0| == |data| && Patched(origin, labels, data + rest, fixups) == (small.0 + rest, small.1)
    decreases |fixups|
  {
    if fixups != [] {
      var before := fixups[..|fixups| - 1];
      PatchedExtends(origin, labels, data, rest, before);
      var f := fixups[|fixups| - 1];
      var small := Patched(origin, labels, data, before);
      if small.1.None? && Refusal(origin, labels, f).None? {
        PatchInside(origin, labels, small.0, rest, f);
      }
    }
  }

  lemma PatchInside(origin: int, labels: map<string, int>, data: seq<byte>, rest: seq<byte>, f: Fixup)
    requires Inside(f, |data|) && Refusal(origin, labels, f).None?
    ensures |Patch(origin, labels, data, f)| == |data|
    ensures Patch(origin, labels, data + rest, f) == Patch(origin, labels, data, f) + rest
  {
    if f.mode != Rel {
      var target := Low(labels[f.name], 2);
      assert (data + rest)[..f.at] == data[..f.at];
      assert (data + rest)[f.at + 2..] == data[f.at + 2..] + rest;
      assert data[..f.at] + target + (data[f.at + 2..] + rest) == data[..f.at] + target + data[f.at + 2..] + rest;
    }
  }

  /** One instruction: its placeholder, patched, is its encoding. */
  lemma PatchedInstruction(q: Source, item: Item, labels: map<string, int>, code: seq<byte>)
    requires item.Instruction? && LabelFits(item) && |code| == |q.data|
    requires Placed(q, item).1.None?
    ensures var p := Placed(q, item).0; var line := Expressed(item, Pc(q), labels);
      var piece := p.data[|q.data|..];
      |p.data| == |q.data| + Length(item.mode) && p.data == q.data + piece && p.origin == q.origin
      && p.labels == q.labels && p.starts == q.starts + [line.pc]
      && if item.operand.Number? then p.fixups == q.fixups && piece == line.raw
         else var f := Fixup(|q.data| + 1, item.mode, item.operand.name);
           p.fixups == q.fixups + [f] && Inside(f, |p.data|)
           && (Refusal(q.origin, labels, f).None? ==> Patch(q.origin, labels, code + piece, f) == code + line.raw)
  {
    hide Reverse;
    var opcode := Reverse(item.name, item.mode).value;
    var n := Length(item.mode) - 1;
    var value := if item.operand.Number? then item.operand.value else 0;
    var piece := [opcode] + Low(value, n);
    var p := Placed(q, item).0;
    assert p.data == q.data + [opcode] + Low(value, n) == q.data + piece;
    if item.operand.Reference? {
      var f := Fixup(|q.data| + 1, item.mode, item.operand.name);
      if Refusal(q.origin, labels, f).None? {
        var target := labels[item.operand.name];
        if item.mode == Rel {
          assert Displacement(q.origin, f, target) == target - (Pc(q) + 2);
          assert (code + piece)[f.at := Displacement(q.origin, f, target) % 0x100] == code + [opcode, Displacement(q.origin, f, target) % 0x100];
        } else {
          assert (code + piece)[..f.at] == code + [opcode];
          assert code + [opcode] + Low(target, 2) + [] == code + ([opcode] + Low(target, 2));
        }
      }
    }
  }

  function Pcs(lines: seq<Line>): seq<int> {
    seq(|lines|, i requires 0 <= i < |lines| => lines[i].pc)
  }

  /** Patching after one more instruction adds its encoding. */
  lemma PatchedOneMore(q: Source, item: Item, labels: map<string, int>)
    requires item.Instruction? && LabelFits(item) && Placed(q, item).1.None? && AllInside(q.fixups, |q.data|)
    requires AllWithin(q.fixups, |q.data|) && |Patched(q.origin, labels, q.data, q.fixups).0| == |q.data|
    ensures var p := Placed(q, item).0; var line := Expressed(item, Pc(q), labels);
      AllInside(p.fixups, |p.data|) && AllWithin(p.fixups, |p.data|) && p.starts == q.starts + [line.pc]
      && var done, before := Patched(q.origin, labels, p.data, p.fixups), Patched(q.origin, labels, q.data, q.fixups);
        |done.0| == |p.data| && (done.1.None? ==> before.1.None? && done.0 == before.0 + line.raw)
  {
    hide Reverse, Expressed, Placed, LabelFits, Refusal;
    var p := Placed(q, item).0;
    var code := Patched(q.origin, labels, q.data, q.fixups).0;
    PatchedInstruction(q, item, labels, code);
    PatchedExtends(q.origin, labels, q.data, p.data[|q.data|..], q.fixups);
    if item.operand.Reference? {
      assert p.fixups[..|q.fixups|] == q.fixups;
      PatchedExtends(q.origin, labels, p.data, [], p.fixups);
    }
  }

  /** Finishing turns the placeholders into the encoding of every instruction. */
  lemma {:induction false} FinishEncodes(origin: int, items: seq<Item>, labels: map<string, int>)
    requires Assembled(origin, items).Some? && AllFit(items)
    ensures var p := Assembled(origin, items).value; var lines := Lines(origin, items, labels);
      AllInside(p.fixups, |p.data|) && AllWithin(p.fixups, |p.data|) && p.starts == Pcs(lines)
      && p.origin == origin && |p.data| == Extent(items)
      && var done := Patched(origin, labels, p.data, p.fixups);
        |done.0| == |p.data| && (done.1.None? ==> done.0 == Pieces(lines))
    decreases |items|
  {
    hide Reverse, Expressed, Placed, LabelFits, Assembled, Pieces, Refusal, Patch;
    AssembledStep(origin, items);
    if items == [] {
      NothingEncoded();
    } else {
      var n := |items| - 1;
      var before, last := items[..n], items[n];
      FinishEncodes(origin, before, labels);
      var q, p := Assembled(origin, before).value, Assembled(origin, items).value;
      PlacedSize(q, last);
      if last.Mark? {
        PlacedLabels(q, last);
        assert Lines(origin, items, labels) == Lines(origin, before, labels);
      } else {
        PatchedOneMore(q, last, labels);
        PiecesExtend(Lines(origin, before, labels), Expressed(last, origin + Extent(before), labels));
      }
    }
  }

  lemma NothingEncoded()
    ensures Pieces([]) == [] && Pcs([]) == []
  {}

  lemma PiecesExtend(lines: seq<Line>, line: Line)
    ensures Pieces(lines + [line]) == Pieces(lines) + line.raw && Pcs(lines + [line]) == Pcs(lines) + [line.pc]
  {
    assert (lines + [line])[..|lines|] == lines;
  }

  // ---- the round trip ----

  /** A resolved reference. */
  predicate Resolves(item: Item, pc: int, labels: map<string, int>) {
    item.Instruction? && item.operand.Reference? ==>
      item.operand.name in labels
      && var target := labels[item.operand.name];
        if item.mode == Rel then -128 <= target - (pc + 2) <= 127 else 0 <= target <= 0xFFFF
  }

  predicate AllResolve(origin: int, items: seq<Item>, labels: map<string, int>) {
    forall k {:trigger items[k]} :: 0 <= k < |items| ==> Resolves(items[k], origin + Extent(items[..k]), labels)
  }

  lemma AllResolveStep(origin: int, items: seq<Item>, labels: map<string, int>)
    requires items != []
    ensures var before, last := items[..|items| - 1], items[|items| - 1];
      AllResolve(origin, items, labels)
      <==> (AllResolve(origin, before, labels) && Resolves(last, origin + Extent(before), labels))
  {
    hide Resolves, Extent;
    var n := |items| - 1;
    var before := items[..n];
    assert items[..n] == before;
    assert forall k {:trigger before[k]} {:trigger items[k]} :: 0 <= k < n ==> before[k] == items[k] && before[..k] == items[..k];
  }

  /** Finishing fails exactly for a reference without a label, a branch too far or an address out of 16 bits. */
  lemma {:induction false} FinishFailsExactly(origin: int, items: seq<Item>, labels: map<string, int>)
    requires Assembled(origin, items).Some?
    ensures var p := Assembled(origin, items).value;
      AllWithin(p.fixups, |p.data|)
      && (Patched(origin, labels, p.data, p.fixups).1.None? <==> AllResolve(origin, items, labels))
    decreases |items|
  {
    hide Reverse, Resolves, Assembled, Placed, AllResolve, Refusal;
    AssembledStep(origin, items);
    AssembledSize(origin, items);
    if items == [] {
      NothingToResolve(origin, labels);
    } else {
      var before, last := items[..|items| - 1], items[|items| - 1];
      FinishFailsExactly(origin, before, labels);
      AllResolveStep(origin, items, labels);
      AssembledSize(origin, before);
      var q, p := Assembled(origin, before).value, Assembled(origin, items).value;
      FailureOfLast(q, last, labels);
      assert |p.data| >= |q.data|;
      FailureIgnoresData(origin, labels, q.data, p.data, q.fixups);
      if last.Instruction? && last.operand.Reference? {
        assert p.fixups[..|q.fixups|] == q.fixups;
      }
    }
  }

  lemma NothingToResolve(origin: int, labels: map<string, int>)
    ensures AllResolve(origin, [], labels)
  {}

  lemma FailureOfLast(q: Source, item: Item, labels: map<string, int>)
    requires Placed(q, item).1.None?
    ensures var p := Placed(q, item).0;
      |p.data| >= |q.data|
      && if item.Instruction? && item.operand.Reference?
         then var f := Fixup(|q.data| + 1, item.mode, item.operand.name);
           p.fixups == q.fixups + [f] && (Refusal(q.origin, labels, f).None? <==> Resolves(item, Pc(q), labels))
         else p.fixups == q.fixups && Resolves(item, Pc(q), labels)
  {
    hide Reverse;
  }

  lemma {:induction false} FailureIgnoresData(origin: int, labels: map<string, int>, a: seq<byte>, b: seq<byte>, fixups: seq<Fixup>)
    requires AllWithin(fixups, |a|) && AllWithin(fixups, |b|)
    ensures Patched(origin, labels, a, fixups).1 == Patched(origin, labels, b, fixups).1
    decreases |fixups|
  {
    if fixups != [] {
      FailureIgnoresData(origin, labels, a, b, fixups[..|fixups| - 1]);
    }
  }

  lemma {:induction false} EveryInstructionHasItsLine(origin: int, items: seq<Item>, labels: map<string, int>, k: nat)
    requires k < |items| && items[k].Instruction?
    ensures Expressed(items[k], origin + Extent(items[..k]), labels) in Lines(origin, items, labels)
    decreases |items|
  {
    hide Expressed;
    var n := |items| - 1;
    if k < n {
      assert items[..n][..k] == items[..k];
      EveryInstructionHasItsLine(origin, items[..n], labels, k);
    }
  }

  lemma MeantFits(q: Source, item: Item, labels: map<string, int>)
    requires item.Instruction? && Placed(q, item).1.None? && LabelFits(item) && Resolves(item, Pc(q), labels)
    ensures Reverse(item.name, item.mode).Some?
    ensures InBytes(Meant(item, Pc(q), labels), Length(item.mode) - 1)
    ensures Length(item.mode) == 1 ==> Meant(item, Pc(q), labels) == 0
  {
    hide Reverse;
  }

  lemma LowHolds(value: int, n: nat)
    requires n <= 2 && InBytes(value, n) && (n == 0 ==> value == 0)
    ensures Value(Low(value, n)) == value
  {}

  /** The line of an instruction that fits and resolves is genuine. */
  lemma ExpressedIsGenuine(q: Source, item: Item, labels: map<string, int>)
    requires item.Instruction? && Placed(q, item).1.None? && LabelFits(item) && Resolves(item, Pc(q), labels)
    ensures Genuine(Expressed(item, Pc(q), labels)) && |Expressed(item, Pc(q), labels).raw| == Length(item.mode)
  {
    hide Lookup, Placed, LabelFits, Resolves, Meant, InBytes, Low, Value;
    MeantFits(q, item, labels);
    var line := Expressed(item, Pc(q), labels);
    var n := Length(item.mode) - 1;
    LowHolds(line.operand, n);
    assert line.raw[1..] == Low(line.operand, n);
  }

  lemma TileOneMore(lines: seq<Line>, line: Line, origin: int)
    requires Tiles(lines, Pieces(lines), origin) && Genuine(line) && line.pc == origin + |Pieces(lines)|
    ensures Tiles(lines + [line], Pieces(lines + [line]), origin)
  {
    hide Genuine;
    PiecesExtend(lines, line);
    var all := lines + [line];
    forall i | 0 <= i < |all| ensures Genuine(all[i]) && all[i].pc == origin + |Pieces(all[..i])| {
      if i < |lines| {
        assert all[i] == lines[i] && all[..i] == lines[..i];
      } else {
        assert all[..i] == lines;
      }
    }
  }

  lemma {:induction false} LinesTile(origin: int, items: seq<Item>, labels: map<string, int>)
    requires Assembled(origin, items).Some? && AllFit(items) && AllResolve(origin, items, labels)
    ensures var lines := Lines(origin, items, labels);
      Tiles(lines, Pieces(lines), origin) && |Pieces(lines)| == Extent(items)
    decreases |items|
  {
    hide Reverse, Expressed, Placed, LabelFits, Resolves, Genuine, Assembled, AllResolve, Pieces, Tiles;
    AssembledStep(origin, items);
    if items == [] {
      NothingTiles(origin);
    } else {
      var n := |items| - 1;
      var before, last := items[..n], items[n];
      AllResolveStep(origin, items, labels);
      LinesTile(origin, before, labels);
      if last.Instruction? {
        var lines, line := Lines(origin, before, labels), Expressed(last, origin + Extent(before), labels);
        var q := Assembled(origin, before).value;
        AssembledSize(origin, before);
        ExpressedIsGenuine(q, last, labels);
        ExpressedAt(last, origin + Extent(before), labels);
        PiecesExtend(lines, line);
        TileOneMore(lines, line, origin);
      } else {
        assert Lines(origin, items, labels) == Lines(origin, before, labels);
      }
    }
  }

  lemma NothingTiles(origin: int)
    ensures Tiles([], [], origin) && Pieces([]) == []
  {}

  lemma ExpressedAt(item: Item, pc: int, labels: map<string, int>)
    requires item.Instruction?
    ensures Expressed(item, pc, labels).pc == pc
  {}

  lemma TilesRise(lines: seq<Line>, code: seq<byte>, origin: int)
    requires Tiles(lines, code, origin)
    ensures Rising(Pcs(lines))
  {
    forall i, j | 0 <= i < j < |lines| ensures lines[i].pc < lines[j].pc {
      TileDecodes(lines, code, origin, i);
      PiecesGrow(lines, i + 1, j);
    }
  }

  lemma {:induction false} PiecesGrow(lines: seq<Line>, i: nat, j: nat)
    requires i <= j <= |lines|
    ensures |Pieces(lines[..i])| <= |Pieces(lines[..j])|
    decreases j - i
  {
    if i < j {
      PiecesGrow(lines, i, j - 1);
      PiecesPrefix(lines, j - 1);
    }
  }

  /** An operand of one byte, or none, never holds a label in the cartridge. */
  lemma UnfitIsNotGenuine(item: Item, pc: int, labels: map<string, int>)
    requires !LabelFits(item) && Resolves(item, pc, labels) && labels[item.operand.name] >= 0x8000
    ensures !Genuine(Expressed(item, pc, labels))
  {
    hide Lookup, Reverse;
  }

  /** Decoding the finished program gives back its names, modes, bytes and resolved operands exactly when the code
    * fits the cartridge, every label is in an operand that can hold it, and every instruction and target is admitted. */
  lemma {:induction false} RoundTrip(g: Gates, origin: int, items: seq<Item>)
    requires Assembled(origin, items).Some?
    requires AllWithin(Assembled(origin, items).value.fixups, |Assembled(origin, items).value.data|)
    requires Finished(Assembled(origin, items).value).1.None?
    ensures var p := Assembled(origin, items).value; var lines := Lines(origin, items, p.labels);
      var code := Finished(p).0;
      Decoded(g, code, origin, p.starts) == Ok(lines)
      <==> (GatesNested(g) && Fits(|code|, origin) && AllFit(items) && AllAllowed(g, lines) && AllReach(g, p.starts, lines))
  {
    hide Lookup, Reverse, Expressed, Placed, LabelFits, AllResolve, Genuine, Assembled, GatesNested, Fits, AllAllowed, AllReach, Patched, Tiles;
    var p := Assembled(origin, items).value;
    var lines, code := Lines(origin, items, p.labels), Finished(p).0;
    AssembledSize(origin, items);
    FinishFailsExactly(origin, items, p.labels);
    DecodesExactly(g, code, origin, p.starts, lines);
    if AllFit(items) {
      FinishEncodes(origin, items, p.labels);
      LinesTile(origin, items, p.labels);
      TilesRise(lines, code, origin);
    } else if Decoded(g, code, origin, p.starts) == Ok(lines) {
      var k :| 0 <= k < |items| && !LabelFits(items[k]);
      NoRoom(g, origin, items, k, lines, code);
      assert false;
    }
  }

  lemma NoRoom(g: Gates, origin: int, items: seq<Item>, k: nat, lines: seq<Line>, code: seq<byte>)
    requires Assembled(origin, items).Some? && k < |items| && !LabelFits(items[k])
    requires var p := Assembled(origin, items).value;
      lines == Lines(origin, items, p.labels) && AllResolve(origin, items, p.labels)
    requires Fits(|code|, origin)
    ensures !Tiles(lines, code, origin)
  {
    hide Lookup, Reverse, Expressed, Genuine, Pieces, Lines, Assembled;
    var labels := Assembled(origin, items).value.labels;
    var pc := origin + Extent(items[..k]);
    assert Resolves(items[k], pc, labels);
    var m := LabelIsMark(origin, items, items[k].operand.name);
    UnfitIsNotGenuine(items[k], pc, labels);
    EveryInstructionHasItsLine(origin, items, labels, k);
    var i :| 0 <= i < |lines| && lines[i] == Expressed(items[k], pc, labels);
  }

  const NARROW: seq<Item> := [Instruction(LDA, Imm, Reference("a")), Mark("a")]

  lemma NarrowAssembles()
    ensures var p := Assembled(0x8000, NARROW);
      p.Some? && p.value.fixups == [Fixup(1, Imm, "a")] && p.value.labels == map["a" := 0x8002] && |p.value.data| == 2
      && p.value.origin == 0x8000
  {
    hide Reverse, Lookup;
    assert Reverse(LDA, Imm).Some? by { LoadHasOpcode(); }
    assert NARROW[..1][..0] == [] && NARROW[..1][0] == NARROW[0];
    assert Assembled(0x8000, []) == Some(Empty(0x8000));
    var first := Placed(Empty(0x8000), NARROW[0]);
    assert Assembled(0x8000, NARROW[..1]) == Some(first.0) && |first.0.data| == 2;
    assert first.0.labels == map[];
  }

  lemma LoadHasOpcode()
    ensures Reverse(LDA, Imm).Some?
  {
    hide Reverse;
    assert Lookup(0xA9) == Op(LDA, Imm);
  }

  /** A label in a one-byte operand is assembled and finished, to code that no gates decode to what was written. */
  lemma NarrowLabelIsLost(g: Gates)
    ensures var p := Assembled(0x8000, NARROW);
      p.Some? && AllWithin(p.value.fixups, |p.value.data|) && Finished(p.value).1.None? && !AllFit(NARROW)
      && |Finished(p.value).0| == 3
      && Decoded(g, Finished(p.value).0, 0x8000, p.value.starts) != Ok(Lines(0x8000, NARROW, p.value.labels))
  {
    hide Assembled, Decoded, Lookup, Reverse, Lines, Fits, GatesNested, AllAllowed, AllReach;
    NarrowAssembles();
    var p := Assembled(0x8000, NARROW).value;
    assert p.fixups[..0] == [] && Patched(p.origin, p.labels, p.data, []) == (p.data, None);
    assert Refusal(p.origin, p.labels, p.fixups[0]).None?;
    assert !LabelFits(NARROW[0]);
    RoundTrip(g, 0x8000, NARROW);
  }

  /** The target the decoder computes for a branch, a jump or a call is the address of its label. */
  lemma TargetIsLabel(item: Item, pc: int, labels: map<string, int>)
    requires item.Instruction? && item.operand.Reference? && Resolves(item, pc, labels)
    requires item.mode == Rel || ((item.name.JMP? || item.name.JSR?) && item.mode == Abs)
    requires 0 <= labels[item.operand.name] <= 0xFFFF
    ensures Target(Expressed(item, pc, labels)) == Some(labels[item.operand.name])
  {
    hide Reverse;
  }
}
