/** The machine and the window checker agree: what a run leaves behind is a window
    the checker accepts, and its ledger is the machine's clock. */
module GuestWindow {
  import opened Bytes
  import opened StatusRegister
  import opened Opcodes
  import opened GuestCycles
  import opened InterruptBoundary
  import opened GuestMachine
  import opened GuestSafety

  /** The observation record of one step, on a clock that reads origin at time 0. */
  function RecordOf(origin: nat, s: Step): GuestCycles.Record {
    var g := s.start;
    GuestCycles.Record(origin + g.time, origin + g.time + s.cost, g.pc, s.row.operand,
                       if s.effect.pointer.Some? then s.effect.pointer.value else 0, s.done.pc, s.row.opcode,
                       Pack(g.p), g.x, g.y, g.a, g.stack.s, 1, 0)
  }

  function RecordsOf(origin: nat, run: seq<Step>): (r: seq<GuestCycles.Record>)
    ensures |r| == |run| && forall k {:trigger r[k]} :: 0 <= k < |run| ==> r[k] == RecordOf(origin, run[k])
  {
    seq(|run|, k requires 0 <= k < |run| => RecordOf(origin, run[k]))
  }

  /** The pointer matters only to the reads that go through it. */
  lemma PointerOnlyWhenRead(i: Instruction, pointer: word)
    requires Cost(i).Ok? && (i.pointer.Some? ==> i.pointer.value == pointer)
    ensures Cost(i.(pointer := Some(pointer))) == Cost(i)
  {
    hide Opcodes.Lookup;
  }

  lemma StepIsExplained(c: Config, origin: nat, s: Step)
    requires Taken(c, s) && ValidProgram(c.program)
    ensures Explained(RecordOf(origin, s))
  {
    hide Opcodes.Lookup, Cost, Pack, Unpack, Execute, Cross, Consume;
    var g := s.start;
    assert s.row == c.program[g.pc];
    UnpackPack(g.p);
    var i := Instruction(s.row.opcode, g.pc, s.row.operand, g.p, g.x, g.y, s.effect.pointer);
    var pointer := RecordOf(origin, s).pointer;
    PointerOnlyWhenRead(i, pointer);
    assert Recorded(RecordOf(origin, s)) == i.(pointer := Some(pointer));
  }

  lemma StepsJoin(c: Config, origin: nat, previous: Step, next: Step, entries: Entries)
    requires Taken(c, previous) && next.start == previous.end
    requires c.irqVector in entries && c.nmiVector in entries
    ensures Joined(RecordOf(origin, previous), RecordOf(origin, next), entries)
    ensures GuestCycles.Entered(RecordOf(origin, previous), RecordOf(origin, next)) <==> Enters(previous)
  {
    hide Opcodes.Lookup, Cost, Pack, Unpack, Execute, Consume, PushAll, Frame;
  }

  /** Every run over cartridge addresses is an accepted window. */
  lemma RunIsAccepted(c: Config, origin: nat, run: seq<Step>, entries: Entries)
    requires IsRun(c, run) && run != []
    requires origin + 0x1_0000_0000 <= 0x1_0000_0000_0000_0000
    requires LegalEntries(entries) && c.irqVector in entries && c.nmiVector in entries
    requires forall k {:trigger run[k]} :: 0 <= k < |run| ==> Cartridge(run[k].start.pc)
    ensures Accepted(RecordsOf(origin, run), entries)
  {
    hide Take, Explained, Joined, StepFacts;
    var records := RecordsOf(origin, run);
    forall k {:trigger records[k]} | 0 <= k < |records|
      ensures WellFormed(records[k]) && Explained(records[k])
      ensures k > 0 ==> Joined(records[k - 1], records[k], entries)
    {
      assert Taken(c, run[k]);
      StepIsExplained(c, origin, run[k]);
      InClock(c, run[k]);
      if k > 0 {
        assert Taken(c, run[k - 1]) && run[k].start == run[k - 1].end;
        StepsJoin(c, origin, run[k - 1], run[k], entries);
      }
    }
  }

  lemma InClock(c: Config, s: Step)
    requires Taken(c, s)
    ensures s.start.time + s.cost < 0x1_0000_0000
  {
    TakenFacts(c, s);
  }

  // ---- what the window checker looks at ----

  /** The original instruction of a record: the operand bytes it has, and the registers before it. */
  function Original(r: Record): Instruction {
    Instruction(r.opcode, r.pc, if Size(r.opcode) == 3 then r.operand else if Size(r.opcode) == 2 then r.operand % 0x100 else 0,
                Unpack(r.p), r.x, r.y, Some(r.pointer))
  }

  /** A record on its own: flagged valid, with 64-bit times, a cartridge address, and the cost of its instruction. */
  predicate Stands(r: Record) {
    && r.valid == 1 && r.reserved == 0 && 0 <= r.start < 0x1_0000_0000_0000_0000 && 0 <= r.end < 0x1_0000_0000_0000_0000
    && 0x8000 <= r.pc <= 0xFFFD && Cost(Original(r)) == (if r.end > r.start then Ok(r.end - r.start) else Err(Unsupported))
    && Known(r.opcode)
  }

  /** A record after another: at once where that one went, or seven cycles later at a declared handler. */
  predicate Follows(previous: Record, r: Record, entries: Entries) {
    var gap := r.start - previous.end;
    (gap == 0 && r.pc == previous.nextPc) || (gap == 7 && r.pc in entries)
  }

  /** The windows that are accepted, by the fields of their records. */
  lemma WindowExactly(records: seq<Record>, entries: Entries)
    ensures Accepted(records, entries)
      <==> (&& records != [] && (forall pc <- entries :: 0x8000 <= pc <= 0xFFFD)
            && (forall i {:trigger records[i]} :: 0 <= i < |records| ==> Stands(records[i]))
            && (forall i {:trigger records[i]} :: 0 < i < |records| ==> Follows(records[i - 1], records[i], entries)))
  {
    hide Cost, Unpack;
    forall i {:trigger records[i]} | 0 <= i < |records|
      ensures Stands(records[i]) <==> WellFormed(records[i]) && Explained(records[i])
    {
      StandsExactly(records[i]);
    }
    hide Stands, WellFormed, Explained;
  }

  lemma StandsExactly(r: Record)
    ensures Stands(r) <==> WellFormed(r) && Explained(r)
  {
    CostFailsExactly(Original(r));
    hide Cost, Unpack;
  }

  /** The reported interrupts are exactly the gaps, each with its record and the kind of its handler. */
  lemma {:induction false} EntriesExactly(records: seq<Record>, entries: Entries, e: Interrupt)
    ensures e in EntriesIn(records, entries)
      <==> (&& 0 < e.beforeRecord < |records| && records[e.beforeRecord].start != records[e.beforeRecord - 1].end
            && records[e.beforeRecord].pc in entries && entries[records[e.beforeRecord].pc] == e.kind)
    decreases |records|
  {
    if |records| >= 2 {
      EntriesExactly(records[..|records| - 1], entries, e);
    }
  }
}
