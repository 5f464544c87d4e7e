/** What holds on every run of the guest timeline: clock, events, NMI latch, IRQ mask. */
module GuestSafety {
  import opened Bytes
  import opened StatusRegister
  import opened Opcodes
  import opened GuestCycles
  import opened InterruptBoundary
  import opened GuestMachine

  // ---- events ----

  /** How many events are due by now. */
  ghost function Due(events: seq<Event>, now: int): nat {
    if events == [] then 0
    else Due(events[..|events| - 1], now) + if events[|events| - 1].cycle <= now then 1 else 0
  }

  /** On increasing events, the due ones are a prefix. */
  lemma {:induction false} DueIsPrefix(events: seq<Event>, now: int, n: nat)
    requires Increasing(events) && n <= |events|
    requires forall i :: 0 <= i < n ==> events[i].cycle <= now
    requires n < |events| ==> events[n].cycle > now
    ensures Due(events, now) == n
    decreases |events|
  {
    if events != [] {
      var last := |events| - 1;
      var before := events[..last];
      DueIsPrefix(before, now, if n == |events| then last else n);
    }
  }

  /** What the loop over due events leaves behind. */
  lemma ConsumeStops(events: seq<Event>, r: Requests, now: nat)
    requires r.index <= |events|
    ensures var r' := Consume(events, r, now);
      && (forall i :: r.index <= i < r'.index ==> events[i].cycle <= now)
      && (r'.index < |events| ==> events[r'.index].cycle > now)
      && r'.irq == (if r'.index == r.index then r.irq else events[r'.index - 1].irq)
      && (r'.nmi <==> (r.nmi || exists i :: r.index <= i < r'.index && events[i].nmi))
    decreases |events| - r.index
  {
    if r.index < |events| && events[r.index].cycle <= now {
      var e := events[r.index];
      ConsumeStops(events, Requests(e.irq, r.nmi || e.nmi, r.index + 1), now);
    }
  }

  lemma FirstLate(events: seq<Event>, now: int, from: nat) returns (n: nat)
    requires Increasing(events) && from <= |events|
    requires forall i :: 0 <= i < from ==> events[i].cycle <= now
    ensures n <= |events|
    ensures forall i :: 0 <= i < n ==> events[i].cycle <= now
    ensures n < |events| ==> events[n].cycle > now
    decreases |events| - from
  {
    n := from;
    if n < |events| && events[n].cycle <= now {
      n := FirstLate(events, now, from + 1);
    }
  }

  /** Consuming brings a cursor that is not past the due events to their end, and leaves any other alone. */
  lemma ConsumeReaches(events: seq<Event>, r: Requests, now: nat)
    requires Increasing(events) && r.index <= |events|
    ensures Consume(events, r, now).index == if r.index <= Due(events, now) then Due(events, now) else r.index
  {
    var n := FirstLate(events, now, 0);
    DueIsPrefix(events, now, n);
    ConsumeStops(events, r, now);
    if r.index <= n {
      DueIsPrefix(events, now, Consume(events, r, now).index);
    }
  }

  lemma DueGrows(events: seq<Event>, before: int, now: int)
    requires before <= now
    ensures Due(events, before) <= Due(events, now)
  {}

  /** The cursor after a step counts exactly the events due before the entry. */
  lemma ConsumeCounts(events: seq<Event>, r: Requests, before: int, now: nat)
    requires Increasing(events) && before <= now && r.index == Due(events, before)
    requires r.index <= |events|
    ensures Consume(events, r, now).index == Due(events, now)
  {
    DueGrows(events, before, now);
    ConsumeReaches(events, r, now);
  }

  // ---- one step ----

  predicate ChangesMask(name: Name) {
    name.CLI? || name.SEI? || name.PLP? || name.RTI?
  }

  /** Clock and requests are the same before and after. */
  predicate SameRequests(g: Guest, d: Guest) {
    d.time == g.time && d.irq == g.irq && d.nmi == g.nmi && d.index == g.index && d.ordinal == g.ordinal
  }

  lemma CallKeeps(g: Guest, name: Name, operand: word)
    requires IsCall(name)
    ensures var d := PerformCall(g, name, operand); SameRequests(g, d) && (!name.RTI? ==> d.p == g.p)
  {
    hide Pack, Unpack, PushAll, Push, Pop, Top;
  }

  lemma TransferKeeps(g: Guest, name: Name)
    requires IsTransfer(name)
    ensures var d := PerformTransfer(g, name); SameRequests(g, d) && (!name.PLP? ==> d.p.i == g.p.i)
  {
    hide Pack, Unpack, PushAll, Push, Pop, Top;
  }

  lemma PlainKeeps(g: Guest, name: Name, e: Effect)
    ensures var d := PerformPlain(g, name, e);
      && SameRequests(g, d)
      && d.p.i == (if name.CLI? then false else if name.SEI? then true else g.p.i)
  {
  }

  /** Natively run operations bring back the host's flags through the masks of the driver. */
  lemma PlainSavesFlags(g: Guest, name: Name, e: Effect, host: Status)
    requires !ChangesMask(name) && !name.CLD? && !name.SED?
    requires e.n == host.n && e.v == host.v && e.z == host.z && e.c == host.c
    ensures Pack(PerformPlain(g, name, e).p) == SaveGuest(Pack(g.p), Pack(host))
  {
    hide Pack, SaveGuest;
    FlagsSplit(g.p, host);
  }

  lemma PerformKeeps(g: Guest, name: Name, mode: Mode, operand: word, e: Effect)
    ensures var d := Perform(g, name, mode, operand, e);
      && SameRequests(g, d)
      && (d.p.i != g.p.i ==> ChangesMask(name))
      && (name.SEI? ==> d.p.i) && (name.CLI? ==> !d.p.i)
  {
    hide PerformCall, PerformTransfer, PerformPlain, BranchTarget, BranchTaken, Plus;
    var next := g.(pc := Plus(g.pc, Length(mode)));
    if IsCall(name) {
      CallKeeps(g, name, operand);
    } else if IsTransfer(name) {
      TransferKeeps(next, name);
    } else {
      PlainKeeps(next, name, e);
    }
  }

  predicate MaskOpcodes(op: Entry, opcode: byte) {
    op.Op? ==>
      && (op.name.PLP? <==> opcode == 0x28) && (op.name.RTI? <==> opcode == 0x40)
      && (op.name.CLI? <==> opcode == 0x58) && (op.name.SEI? <==> opcode == 0x78)
  }

  lemma MaskOpcodesInTable(opcode: byte)
    ensures MaskOpcodes(Lookup(opcode), opcode)
  {
  }

  /** Execution touches neither the clock nor the requests, and the mask only
      through CLI, SEI, PLP and RTI. */
  lemma ExecuteKeeps(g: Guest, row: Row, e: Effect)
    requires Known(row.opcode)
    ensures var d := Execute(g, row, e);
      && SameRequests(g, d)
      && (d.p.i != g.p.i ==> row.opcode == 0x40 || DelayedMask(row.opcode))
      && (row.opcode == 0x78 ==> d.p.i) && (row.opcode == 0x58 ==> !d.p.i)
  {
    MaskOpcodesInTable(row.opcode);
    PerformKeeps(g, Lookup(row.opcode).name, Lookup(row.opcode).mode, row.operand, e);
  }

  predicate Enters(s: Step) {
    !Decide(s.boundary).Nothing?
  }

  /** The accepted step, without its instruction semantics. */
  ghost predicate StepFacts(c: Config, s: Step) {
    && s.start.index <= |c.events|
    && 2 <= s.cost <= 7 && s.start.time < CLOCK_LIMIT
    && s.end.time == s.start.time + s.cost + EntryCost(s.boundary)
    && s.requests == Consume(c.events, Requests(s.start.irq, s.start.nmi, s.start.index), s.start.time + s.cost)
    && s.end.index == s.requests.index && s.end.irq == s.requests.irq
    && s.end.nmi == (s.requests.nmi && !Decide(s.boundary).EnterNmi?)
    && s.boundary.opcode == s.row.opcode && s.boundary.before == s.start.p && s.boundary.after == s.done.p
    && s.boundary.irq == s.requests.irq && s.boundary.nmi == s.requests.nmi
    && s.end.p == (if Enters(s) then s.done.p.(i := true) else s.done.p)
    && (s.done.p.i != s.start.p.i ==> s.row.opcode == 0x40 || DelayedMask(s.row.opcode))
    && (s.row.opcode == 0x78 ==> s.done.p.i)
    && s.end.ordinal == s.start.ordinal + 1
  }

  lemma TakenFacts(c: Config, s: Step)
    requires Taken(c, s)
    ensures StepFacts(c, s)
  {
    hide Opcodes.Lookup, Execute, Cost, Consume, PushAll, Frame;
    ExecuteKeeps(s.start, s.row, s.effect);
  }

  /** What every step of a run satisfies, and how it follows the one before. */
  lemma RunFacts(c: Config, run: seq<Step>, k: nat)
    requires IsRun(c, run) && k < |run|
    ensures StepFacts(c, run[k]) && ValidEvents(c.events)
    ensures k > 0 ==> run[k].start == run[k - 1].end
  {
    hide Take;
    assert Taken(c, run[k]);
    TakenFacts(c, run[k]);
  }

  // ---- the clock and the event cursor ----

  /** When the events of a step were consumed: before its entry, if any. */
  function Settling(s: Step): int {
    s.end.time - EntryCost(s.boundary) as int
  }

  /** On every run the clock is the sum of costs and entries, never leaves 32 bits,
      and the cursor stands past exactly the events due before the last entry. */
  lemma {:induction false} Ledger(c: Config, run: seq<Step>, k: nat)
    requires IsRun(c, run) && k < |run| && run[0].start.index == Due(c.events, run[0].start.time)
    ensures run[k].end.time == run[k].start.time + run[k].cost + EntryCost(run[k].boundary)
    ensures 2 <= run[k].cost <= 7 && run[k].end.time < 0x1_0000_0000
    ensures run[k].end.index == Due(c.events, Settling(run[k]))
    decreases k
  {
    hide Take, IsRun;
    RunFacts(c, run, k);
    var s := run[k];
    var before := s.start.time as int;
    if k > 0 {
      Ledger(c, run, k - 1);
      before := Settling(run[k - 1]);
    }
    ConsumeCounts(c.events, Requests(s.start.irq, s.start.nmi, s.start.index), before, s.start.time + s.cost);
  }

  function Spent(run: seq<Step>): nat {
    if run == [] then 0
    else Spent(run[..|run| - 1]) + run[|run| - 1].cost + EntryCost(run[|run| - 1].boundary)
  }

  /** The clock telescopes over a whole run. */
  lemma {:induction false} ClockTelescopes(c: Config, run: seq<Step>)
    requires IsRun(c, run) && run != []
    ensures run[|run| - 1].end.time == run[0].start.time + Spent(run)
    decreases |run|
  {
    hide Take;
    var last := |run| - 1;
    RunFacts(c, run, last);
    if last > 0 {
      ClockTelescopes(c, run[..last]);
    } else {
      assert run[..last] == [];
    }
  }

  // ---- NMI ----

  ghost predicate ConsumesNmi(c: Config, s: Step)
    requires s.end.index <= |c.events|
  {
    exists i :: s.start.index <= i < s.end.index && c.events[i].nmi
  }

  /** Started with a clear latch, every run enters NMI at exactly the boundaries
      that consumed an NMI event, and no request outlives its boundary. */
  lemma {:induction false} NmiEntries(c: Config, run: seq<Step>, k: nat)
    requires IsRun(c, run) && k < |run| && !run[0].start.nmi
    ensures !run[k].start.nmi && !run[k].end.nmi && run[k].end.index <= |c.events|
    ensures Decide(run[k].boundary).EnterNmi? <==> ConsumesNmi(c, run[k])
    decreases k
  {
    hide Take, IsRun;
    RunFacts(c, run, k);
    if k > 0 {
      NmiEntries(c, run, k - 1);
    }
    var s := run[k];
    ConsumeStops(c.events, Requests(s.start.irq, s.start.nmi, s.start.index), s.start.time + s.cost);
  }

  // ---- the IRQ mask ----

  /** Step m makes the mask clear in time for the boundary of step k: an RTI at
      once, a CLI or PLP only for later instructions. */
  ghost predicate Releases(run: seq<Step>, m: nat, k: nat)
    requires m < |run|
  {
    && !run[m].done.p.i
    && (|| (run[m].row.opcode == 0x40 && m <= k)
        || ((run[m].row.opcode == 0x58 || run[m].row.opcode == 0x28) && m < k))
  }

  ghost predicate Quiet(run: seq<Step>, from: nat, to: nat) {
    forall n {:trigger run[n]} :: from <= n < to && n < |run| ==> !Enters(run[n])
  }

  /** A mask found clear after an entry was cleared by a step since then. */
  lemma {:induction false} ClearWasReleased(c: Config, run: seq<Step>, j: nat, k: nat) returns (m: nat)
    requires IsRun(c, run) && j < k < |run| && Enters(run[j]) && !run[k].start.p.i
    ensures j < m < k && Releases(run, m, k) && Quiet(run, m, k)
    decreases k
  {
    hide Take, IsRun;
    RunFacts(c, run, k);
    RunFacts(c, run, k - 1);
    m := k - 1;
    if !run[m].start.p.i {
      m := ClearWasReleased(c, run, j, m);
    }
  }

  /** No IRQ is entered while the polled mask is set; and after any entry, none is
      until an RTI, or a CLI or PLP with one more instruction, has cleared the mask
      with no entry in between. */
  lemma IrqNeedsRelease(c: Config, run: seq<Step>, j: nat, k: nat)
    requires IsRun(c, run) && j < k < |run| && Enters(run[j]) && Decide(run[k].boundary).EnterIrq?
    ensures !Polled(run[k].boundary).i
    ensures exists m: nat :: j < m <= k && Releases(run, m, k) && Quiet(run, m, k)
  {
    hide Take, IsRun;
    RunFacts(c, run, k);
    if !run[k].start.p.i {
      var m := ClearWasReleased(c, run, j, k);
    } else {
      assert Releases(run, k, k) && Quiet(run, k, k);
    }
  }
}
