/** Instruction timing of the 2A03 and the complete-window ledger
    (tools/guest_cycles.py). */
module GuestCycles {
  import opened Bytes
  import opened StatusRegister
  import opened Opcodes

  datatype Adjustment = Fixed | ByX | ByY | ByPointer | Branch

  datatype Timing = Timing(base: nat, adjustment: Adjustment)

  predicate IsReadModifyWrite(name: Name) {
    name.ASL? || name.LSR? || name.ROL? || name.ROR? || name.INC? || name.DEC?
  }

  predicate IsStoreName(name: Name) {
    name.STA? || name.STX? || name.STY?
  }

  /** Cycles of the operations that do not follow their addressing mode. */
  function Special(name: Name): Option<nat> {
    match name
    case BRK => Some(7) case JSR => Some(6) case RTI => Some(6) case RTS => Some(6)
    case PHP => Some(3) case PHA => Some(3) case PLP => Some(4) case PLA => Some(4)
    case _ => None
  }

  function ReadModifyWriteBase(mode: Mode): Option<nat> {
    match mode
    case Zp => Some(5) case ZpX => Some(6) case Abs => Some(6) case AbsX => Some(7)
    case _ => None
  }

  function StoreBase(mode: Mode): Option<nat> {
    match mode
    case Zp => Some(3) case ZpX => Some(4) case ZpY => Some(4) case Abs => Some(4)
    case AbsX => Some(5) case AbsY => Some(5) case IndX => Some(6) case IndY => Some(6)
    case _ => None
  }

  function ReadBase(mode: Mode): Option<nat> {
    match mode
    case Imm => Some(2) case Zp => Some(3) case ZpX => Some(4) case ZpY => Some(4) case Abs => Some(4)
    case AbsX => Some(4) case AbsY => Some(4) case IndX => Some(6) case IndY => Some(5)
    case _ => None
  }

  function ReadAdjustment(mode: Mode): Adjustment {
    if mode.AbsX? then ByX else if mode.AbsY? then ByY else if mode.IndY? then ByPointer else Fixed
  }

  function Timed(base: Option<nat>, adjustment: Adjustment): Option<Timing> {
    if base.Some? then Some(Timing(base.value, adjustment)) else None
  }

  /** Base cycles and the adjustment they are subject to; None where the timing
      tables have no entry. */
  function Metadata(op: Entry): Option<Timing> {
    match op
    case Unknown => None
    case Op(name, mode) =>
      if Special(name).Some? then Timed(Special(name), Fixed)
      else if name.JMP? then Some(Timing(if mode.Ind? then 5 else 3, Fixed))
      else if IsBranch(name) then Some(Timing(2, Branch))
      else if mode.Imp? || mode.Acc? then Some(Timing(2, Fixed))
      else if IsReadModifyWrite(name) then Timed(ReadModifyWriteBase(mode), Fixed)
      else if IsStoreName(name) then Timed(StoreBase(mode), Fixed)
      else Timed(ReadBase(mode), ReadAdjustment(mode))
  }

  /** What the tables give every documented opcode: a timing whose worst case is seven cycles. */
  predicate WellTimed(op: Entry) {
    op.Op? ==>
      && Metadata(op).Some?
      && 2 <= Metadata(op).value.base
      && (match Metadata(op).value.adjustment
          case Fixed => Metadata(op).value.base <= 7
          case Branch => op.mode.Rel? && Metadata(op).value.base == 2
          case _ => Metadata(op).value.base <= 5)
  }

  lemma LowWellTimed(opcode: byte)
    ensures WellTimed(LowQuarter(opcode))
  {
  }

  lemma LowMiddleWellTimed(opcode: byte)
    ensures WellTimed(LowMiddleQuarter(opcode))
  {
  }

  lemma HighMiddleWellTimed(opcode: byte)
    ensures WellTimed(HighMiddleQuarter(opcode))
  {
  }

  lemma HighWellTimed(opcode: byte)
    ensures WellTimed(HighQuarter(opcode))
  {
  }

  lemma AllWellTimed(opcode: byte)
    ensures WellTimed(Lookup(opcode))
  {
    hide WellTimed;
    LowWellTimed(opcode);
    LowMiddleWellTimed(opcode);
    HighMiddleWellTimed(opcode);
    HighWellTimed(opcode);
  }

  datatype Instruction = Instruction(opcode: byte, pc: word, operand: word, p: Status, x: byte, y: byte, pointer: Option<word>)

  datatype CostError = Unsupported | WideOperand | MissingPointer

  /** The flag a branch tests agrees with the sense it waits for. */
  predicate BranchTaken(name: Name, p: Status) {
    match name
    case BPL => !p.n
    case BMI => p.n
    case BVC => !p.v
    case BVS => p.v
    case BCC => !p.c
    case BCS => p.c
    case BNE => !p.z
    case BEQ => p.z
    case _ => false
  }

  predicate SamePage(a: word, b: word) {
    a / 0x100 == b / 0x100
  }

  predicate Crosses(address: word, index: byte) {
    address % 0x100 + index as int > 0xFF
  }

  function Extra(i: Instruction, adjustment: Adjustment): (r: nat)
    requires adjustment.ByPointer? ==> i.pointer.Some?
    requires adjustment.Branch? ==> Known(i.opcode) && i.operand <= 0xFF
    ensures r <= (match adjustment case Fixed => 0 case Branch => 2 case _ => 1)
  {
    match adjustment
    case Fixed => 0
    case ByX => if Crosses(i.operand, i.x) then 1 else 0
    case ByY => if Crosses(i.operand, i.y) then 1 else 0
    case ByPointer => if Crosses(i.pointer.value, i.y) then 1 else 0
    case Branch =>
      if !BranchTaken(Lookup(i.opcode).name, i.p) then 0
      else if SamePage((i.pc + 2) % 0x1_0000, BranchTarget(i.pc, i.operand)) then 1
      else 2
  }

  /** Cycles of one instruction from its own bytes and the registers before it. */
  function Cost(i: Instruction): (r: Result<nat, CostError>)
    ensures r.Ok? ==> 2 <= r.value <= 7
  {
    AllWellTimed(i.opcode);
    var op := Lookup(i.opcode);
    match Metadata(op)
    case None => Err(Unsupported)
    case Some(Timing(base, adjustment)) =>
      if Size(i.opcode) == 2 && i.operand > 0xFF then Err(WideOperand)
      else if adjustment.ByPointer? && i.pointer.None? then Err(MissingPointer)
      else Ok(base + Extra(i, adjustment))
  }

  /** The cost depends on the pointer only for the reads that go through one. */
  lemma CostFailsExactly(i: Instruction)
    ensures Cost(i) == Err(Unsupported) <==> !Known(i.opcode)
    ensures Cost(i).Ok? <==>
      (Known(i.opcode) && (Size(i.opcode) == 2 ==> i.operand <= 0xFF)
       && (Metadata(Lookup(i.opcode)).value.adjustment.ByPointer? ==> i.pointer.Some?))
  {
    AllWellTimed(i.opcode);
  }

  // ---- the window ledger ----

  datatype Kind = Irq | Nmi

  datatype Record = Record(start: int, end: int, pc: word, operand: word, pointer: word, nextPc: word, opcode: byte,
                           p: byte, x: byte, y: byte, a: byte, s: byte, valid: int, reserved: int)

  type Entries = map<word, Kind>

  datatype Interrupt = Interrupt(beforeRecord: nat, kind: Kind)

  datatype Ledger = Ledger(instructions: nat, instructionCycles: nat, interruptCycles: nat, interrupts: seq<Interrupt>,
                           spanCycles: int)

  datatype WindowError =
    | EmptyWindow | BadEntries | BadRecord(at: nat) | BadDuration(at: nat) | UnexplainedGap(at: nat)
    | Discontinuity(at: nat) | DoesNotClose

  predicate Cartridge(pc: word) {
    0x8000 <= pc <= 0xFFFD
  }

  predicate LegalEntries(entries: Entries) {
    forall pc <- entries :: Cartridge(pc)
  }

  predicate Timestamp(t: int) {
    0 <= t < 0x1_0000_0000_0000_0000
  }

  predicate WellFormed(r: Record) {
    r.valid == 1 && r.reserved == 0 && Timestamp(r.start) && Timestamp(r.end) && Cartridge(r.pc)
  }

  function Recorded(r: Record): Instruction {
    Instruction(r.opcode, r.pc, if Size(r.opcode) == 3 then r.operand else if Size(r.opcode) == 2 then r.operand % 0x100 else 0,
                Unpack(r.p), r.x, r.y, Some(r.pointer))
  }

  /** The recorded duration is exactly the cost of the recorded instruction. */
  predicate Explained(r: Record) {
    Cost(Recorded(r)).Ok? && r.end - r.start == Cost(Recorded(r)).value
  }

  predicate AllExplained(records: seq<Record>) {
    forall i {:trigger records[i]} :: 0 <= i < |records| ==> Explained(records[i])
  }

  predicate Entered(previous: Record, r: Record) {
    r.start != previous.end
  }

  /** A record follows the previous one directly, or through a known handler entry. */
  predicate Joined(previous: Record, r: Record, entries: Entries) {
    if Entered(previous, r) then r.start - previous.end == 7 && r.pc in entries else previous.nextPc == r.pc
  }

  ghost predicate Accepted(records: seq<Record>, entries: Entries) {
    && records != [] && LegalEntries(entries)
    && (forall i {:trigger records[i]} :: 0 <= i < |records| ==> WellFormed(records[i]) && Explained(records[i]))
    && (forall i {:trigger records[i]} :: 0 < i < |records| ==> Joined(records[i - 1], records[i], entries))
  }

  function Cycles(records: seq<Record>): (c: nat)
    requires AllExplained(records)
    ensures 2 * |records| <= c <= 7 * |records|
  {
    if records == [] then 0
    else Cycles(records[..|records| - 1]) + Cost(Recorded(records[|records| - 1])).value
  }

  /** The handler entries between consecutive records, by the record they precede. */
  function EntriesIn(records: seq<Record>, entries: Entries): seq<Interrupt> {
    if |records| < 2 then []
    else
      var last := |records| - 1;
      EntriesIn(records[..last], entries)
      + (if Entered(records[last - 1], records[last]) && records[last].pc in entries
         then [Interrupt(last, entries[records[last].pc])] else [])
  }

  /** Accepted time is instruction time plus seven cycles for each entry: nothing else fits in. */
  lemma {:induction false} WindowCloses(records: seq<Record>, entries: Entries)
    requires Accepted(records, entries)
    ensures AllExplained(records)
    ensures Cycles(records) + 7 * |EntriesIn(records, entries)| == records[|records| - 1].end - records[0].start
    decreases |records|
  {
    hide Cost, Recorded;
    var last := |records| - 1;
    if last > 0 {
      WindowCloses(records[..last], entries);
      assert Joined(records[last - 1], records[last], entries);
    } else {
      assert records[..last] == [];
    }
  }

  /** Records of an accepted window are in order and never overlap. */
  lemma {:induction false} WindowIsOrdered(records: seq<Record>, entries: Entries, i: nat, j: nat)
    requires Accepted(records, entries) && i < j < |records|
    ensures records[i].start < records[i].end <= records[j].start
    decreases j
  {
    hide Cost, Recorded;
    assert Explained(records[i]) && Explained(records[j - 1]);
    assert Joined(records[j - 1], records[j], entries);
    if i < j - 1 {
      WindowIsOrdered(records, entries, i, j - 1);
    }
  }

  /** Two windows join into one exactly when each is accepted and their junction is. */
  lemma WindowsCompose(first: seq<Record>, second: seq<Record>, entries: Entries)
    requires first != [] && second != []
    ensures Accepted(first + second, entries) <==>
      Accepted(first, entries) && Accepted(second, entries) && Joined(first[|first| - 1], second[0], entries)
  {
    hide Explained, WellFormed, Joined;
    var both := first + second;
    if Accepted(both, entries) {
      assert forall i :: 0 <= i < |first| ==> both[i] == first[i];
      forall i {:trigger second[i]} | 0 <= i < |second|
        ensures WellFormed(second[i]) && Explained(second[i])
        ensures i > 0 ==> Joined(second[i - 1], second[i], entries)
      {
        assert both[|first| + i] == second[i];
        assert i > 0 ==> both[|first| + i - 1] == second[i - 1];
      }
      assert both[|first|] == second[0];
    }
  }

  lemma {:induction false} CyclesCompose(first: seq<Record>, second: seq<Record>)
    requires AllExplained(first) && AllExplained(second)
    ensures AllExplained(first + second)
    ensures Cycles(first + second) == Cycles(first) + Cycles(second)
    decreases |second|
  {
    hide Cost, Recorded;
    if second == [] {
      assert first + second == first;
    } else {
      var before := second[..|second| - 1];
      assert (first + second)[..|first + second| - 1] == first + before;
      CyclesCompose(first, before);
    }
  }

  /** Totals add up across a legal junction, plus the entry that may happen there. */
  lemma TotalsCompose(first: seq<Record>, second: seq<Record>, entries: Entries)
    requires first != [] && second != [] && Accepted(first + second, entries)
    ensures Accepted(first, entries) && Accepted(second, entries)
    ensures AllExplained(first) && AllExplained(second) && AllExplained(first + second)
    ensures Cycles(first + second) == Cycles(first) + Cycles(second)
    ensures |EntriesIn(first + second, entries)| == |EntriesIn(first, entries)| + |EntriesIn(second, entries)|
      + if Entered(first[|first| - 1], second[0]) then 1 else 0
  {
    hide Cost, Recorded, Cycles, EntriesIn, Accepted;
    WindowsCompose(first, second, entries);
    WindowCloses(first, entries);
    WindowCloses(second, entries);
    WindowCloses(first + second, entries);
    CyclesCompose(first, second);
  }

  /** Why record i cannot follow the accepted records before it, if it cannot. */
  function Objection(records: seq<Record>, entries: Entries, i: nat): Option<WindowError>
    requires i < |records|
  {
    if !WellFormed(records[i]) || Cost(Recorded(records[i])).Err? then Some(BadRecord(i))
    else if !Explained(records[i]) then Some(BadDuration(i))
    else if i > 0 && !Joined(records[i - 1], records[i], entries) then
      Some(if Entered(records[i - 1], records[i]) then UnexplainedGap(i) else Discontinuity(i))
    else None
  }

  lemma PrefixAccepted(records: seq<Record>, entries: Entries, k: nat)
    requires LegalEntries(entries) && 0 < k <= |records|
    requires forall i :: 0 <= i < k ==> Objection(records, entries, i).None?
    ensures Accepted(records[..k], entries)
  {
    hide Cost, Recorded;
    var part := records[..k];
    forall i {:trigger part[i]} | 0 <= i < k
      ensures WellFormed(part[i]) && Explained(part[i])
      ensures i > 0 ==> Joined(part[i - 1], part[i], entries)
    {
      assert Objection(records, entries, i).None?;
    }
  }

  lemma AcceptedExactly(records: seq<Record>, entries: Entries)
    requires LegalEntries(entries) && records != []
    ensures Accepted(records, entries) <==> forall i {:trigger Objection(records, entries, i)} ::
      0 <= i < |records| ==> Objection(records, entries, i).None?
  {
    hide Cost, Recorded, WellFormed, Joined;
    if forall i {:trigger Objection(records, entries, i)} :: 0 <= i < |records| ==> Objection(records, entries, i).None? {
      PrefixAccepted(records, entries, |records|);
      assert records[..|records|] == records;
    }
  }

  /** Checks a window record by record and totals it. The refusal for a ledger
      that does not close is never returned. */
  method AccountWindow(records: seq<Record>, entries: Entries) returns (r: Result<Ledger, WindowError>)
    ensures r.Ok? <==> Accepted(records, entries)
    ensures r.Ok? ==>
      && AllExplained(records)
      && r.value == Ledger(|records|, Cycles(records), 7 * |EntriesIn(records, entries)|, EntriesIn(records, entries),
                           records[|records| - 1].end - records[0].start)
      && r.value.instructionCycles + r.value.interruptCycles == r.value.spanCycles
    ensures r != Err(DoesNotClose)
  {
    hide Cost, Recorded, WellFormed, Joined;
    if records == [] {
      return Err(EmptyWindow);
    }
    if !LegalEntries(entries) {
      return Err(BadEntries);
    }
    AcceptedExactly(records, entries);
    var execution, interruptCycles := 0, 0;
    var interrupts: seq<Interrupt> := [];
    for i := 0 to |records|
      invariant forall k {:trigger Objection(records, entries, k)} :: 0 <= k < i ==> Objection(records, entries, k).None?
      invariant AllExplained(records[..i])
      invariant execution == Cycles(records[..i])
      invariant interrupts == EntriesIn(records[..i], entries) && interruptCycles == 7 * |interrupts|
    {
      var objection := Objection(records, entries, i);
      if objection.Some? {
        return Err(objection.value);
      }
      assert records[..i + 1][..i] == records[..i];
      if i > 0 && records[i].start != records[i - 1].end {
        EnteredIsDeclared(records[i - 1], records[i], entries);
        interrupts := interrupts + [Interrupt(i, entries[records[i].pc])];
        interruptCycles := interruptCycles + 7;
      }
      execution := execution + Cost(Recorded(records[i])).value;
    }
    assert records[..|records|] == records;
    WindowCloses(records, entries);
    var span := records[|records| - 1].end - records[0].start;
    if execution + interruptCycles != span {
      return Err(DoesNotClose);
    }
    r := Ok(Ledger(|records|, execution, interruptCycles, interrupts, span));
  }

  lemma EnteredIsDeclared(previous: Record, r: Record, entries: Entries)
    requires Joined(previous, r, entries) && Entered(previous, r)
    ensures r.pc in entries
  {
  }
}
