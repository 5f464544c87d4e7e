/** The probe and the guest timeline keep the same ledger: driven by the
    instructions and entries of a run, the probe never reports an error, and its
    rows are the steps of the run. */
module ProbeAgreement {
  import opened Bytes
  import opened StatusRegister
  import Opcodes
  import GuestCycles
  import opened InterruptBoundary
  import opened GuestMachine
  import opened GuestSafety
  import opened TimelineProbe

  function CaptureOf(g: Guest): Capture {
    Capture(g.pc, g.a, g.x, g.y, Pack(g.p), g.stack.s, g.irq, g.nmi)
  }

  function KindOf(d: Decision): nat {
    match d case Nothing => 0 case EnterIrq => 1 case EnterNmi => 2
  }

  /** A row shows a state of the run and the step that led to it. */
  predicate RowShows(row: ProbeRow, g: Guest, k: nat) {
    row.cycle == g.time && row.capture == CaptureOf(g) && row.eventIndex == g.index && row.ordinal == k
  }

  predicate RowRecords(row: ProbeRow, s: GuestMachine.Step) {
    && row.cost == s.cost && row.entry == EntryCost(s.boundary) && row.kind == KindOf(Decide(s.boundary))
    && row.opcode == s.row.opcode
  }

  /** The probe has observed the first n steps of the run, of which it will see |run|. */
  ghost predicate Tracks(c: Config, origin: nat, run: seq<GuestMachine.Step>, n: nat, q: ProbeState)
    requires 0 < n <= |run|
  {
    && q.active && q.started && q.pending && q.error == 0 && q.origin == origin && q.events == c.events
    && q.limit == |run| + 1 && |q.rows| == n
    && q.beforeTime == origin + run[n - 1].start.time && q.afterTime == q.beforeTime + run[n - 1].cost
    && q.eventIndex == run[n - 1].end.index && q.opcode == run[n - 1].row.opcode
    && RowsShow(run, n, q.rows)
  }

  ghost predicate RowsShow(run: seq<GuestMachine.Step>, n: nat, rows: seq<ProbeRow>)
    requires n <= |run|
  {
    && |rows| >= n
    && (forall k {:trigger rows[k]} :: 0 <= k < n ==> RowShows(rows[k], run[k].start, k))
    && (forall k {:trigger rows[k]} :: 0 < k < n ==> RowRecords(rows[k], run[k - 1]))
  }

  /** Which requests are pending has no influence on how far the cursor moves. */
  lemma CursorIgnoresRequests(events: seq<Event>, r: Requests, irq: bool, nmi: bool, now: nat)
    requires r.index <= |events|
    ensures Consume(events, r, now).index == Consume(events, Requests(irq, nmi, r.index), now).index
    decreases |events| - r.index
  {
    if r.index < |events| && events[r.index].cycle <= now {
      var e := events[r.index];
      CursorIgnoresRequests(events, Requests(e.irq, r.nmi || e.nmi, r.index + 1), e.irq, nmi || e.nmi, now);
    }
  }

  /** The completion of the observed instruction moves the cursor as the step did. */
  lemma CompletionTracks(c: Config, origin: nat, run: seq<GuestMachine.Step>, n: nat, q: ProbeState)
    requires IsRun(c, run) && n < |run| && q.active && q.started && q.error == 0 && q.events == c.events
    requires q.origin == origin && q.beforeTime == origin + run[n].start.time && q.eventIndex == run[n].start.index
    requires q.limit == |run| + 1 && |q.rows| == n + 1 && RowsShow(run, n + 1, q.rows)
    requires q.eventIndex <= |q.events|
    ensures Tracks(c, origin, run, n + 1, Completed(q, run[n].row.opcode, origin + run[n].start.time + run[n].cost))
  {
    hide Taken, IsRun, RowShows, RowRecords;
    RunFacts(c, run, n);
    var g := run[n].start;
    CursorIgnoresRequests(c.events, Requests(q.line, q.latch, q.eventIndex), g.irq, g.nmi, g.time + run[n].cost);
  }

  /** The state reached after n steps. */
  function Reached(run: seq<GuestMachine.Step>, n: nat): Guest
    requires 0 < n <= |run|
  {
    run[n - 1].end
  }

  /** What the probe relies on about the step it has just observed. */
  ghost predicate StepSound(c: Config, s: GuestMachine.Step) {
    && s.end.index <= |c.events| <= 64 && 2 <= s.cost <= 7
    && s.start.time < CLOCK_LIMIT && s.end.time == s.start.time + s.cost + EntryCost(s.boundary)
    && (Decide(s.boundary).EnterIrq? ==> s.end.pc == c.irqVector)
    && (Decide(s.boundary).EnterNmi? ==> s.end.pc == c.nmiVector)
  }

  lemma StepsAreSound(c: Config, run: seq<GuestMachine.Step>, k: nat)
    requires IsRun(c, run) && k < |run|
    ensures StepSound(c, run[k])
  {
    hide Execute, Opcodes.Lookup, GuestCycles.Cost, PushAll, Frame;
    assert Taken(c, run[k]);
    RunFacts(c, run, k);
  }

  /** The capture in front of the next instruction becomes the row of the step before it. */
  lemma CaptureTracks(c: Config, origin: nat, run: seq<GuestMachine.Step>, n: nat, q: ProbeState)
    requires 0 < n <= |run| < MAX_ROWS && Tracks(c, origin, run, n, q) && StepSound(c, run[n - 1])
    requires c.irqVector != c.nmiVector
    ensures var g := Reached(run, n);
      var r := Captured(q, CaptureOf(g), origin + g.time, true, c.nmiVector);
      var row := NextRow(q, CaptureOf(g), origin + g.time, c.nmiVector);
      && r == q.(rows := q.rows + [row], pending := false, beforeTime := origin + g.time, active := n < |run|)
      && RowShows(row, g, n) && RowRecords(row, run[n - 1])
  {
    hide RowsShow;
  }

  /** A capture has just been taken in front of step n, with all rows up to it in place. */
  ghost predicate Ready(c: Config, origin: nat, run: seq<GuestMachine.Step>, n: nat, q: ProbeState)
    requires n < |run|
  {
    && q.active && q.started && q.error == 0 && q.events == c.events && q.origin == origin
    && q.beforeTime == origin + run[n].start.time && q.eventIndex == run[n].start.index <= |q.events|
    && q.limit == |run| + 1 && |q.rows| == n + 1 && RowsShow(run, n + 1, q.rows)
  }

  lemma FirstCapture(c: Config, origin: nat, run: seq<GuestMachine.Step>, q: ProbeState)
    requires IsRun(c, run) && 0 < |run| < MAX_ROWS && run[0].start.time == 0 && run[0].start.index == 0
    requires 0x8000 <= run[0].start.pc <= 0xFFFD && q == Configured(IDLE, run[0].start.pc, |run|, c.events)
    ensures q.active && Ready(c, origin, run, 0, Captured(q, CaptureOf(run[0].start), origin, true, c.nmiVector))
  {
    hide Taken;
  }

  lemma NextCapture(c: Config, origin: nat, run: seq<GuestMachine.Step>, n: nat, q: ProbeState)
    requires 0 < n < |run| < MAX_ROWS && Tracks(c, origin, run, n, q) && StepSound(c, run[n - 1])
    requires c.irqVector != c.nmiVector && run[n].start == run[n - 1].end
    ensures Ready(c, origin, run, n, Captured(q, CaptureOf(run[n].start), origin + run[n].start.time, true, c.nmiVector))
  {
    hide Captured, NextRow, RowShows, RowRecords, CaptureOf;
    CaptureTracks(c, origin, run, n, q);
  }

  /** One row for each state of the run, and no error. */
  ghost predicate Complete(run: seq<GuestMachine.Step>, q: ProbeState)
    requires run != []
  {
    && q.error == 0 && |q.rows| == |run| + 1 && RowsShow(run, |run|, q.rows)
    && RowShows(q.rows[|run|], Reached(run, |run|), |run|) && RowRecords(q.rows[|run|], run[|run| - 1])
  }

  lemma LastCapture(c: Config, origin: nat, run: seq<GuestMachine.Step>, q: ProbeState)
    requires 0 < |run| < MAX_ROWS && Tracks(c, origin, run, |run|, q) && StepSound(c, run[|run| - 1])
    requires c.irqVector != c.nmiVector
    ensures var g := Reached(run, |run|);
      Complete(run, Captured(q, CaptureOf(g), origin + g.time, true, c.nmiVector))
  {
    hide Captured, NextRow, RowShows, RowRecords, CaptureOf;
    CaptureTracks(c, origin, run, |run|, q);
  }

  /** The completion of step n and the capture in front of the next instruction. */
  method ObserveStep(probe: Probe, c: Config, origin: nat, run: seq<GuestMachine.Step>, n: nat)
    requires IsRun(c, run) && n < |run| < MAX_ROWS && c.irqVector != c.nmiVector && Ready(c, origin, run, n, probe.q)
    modifies probe
    ensures if n + 1 < |run| then Ready(c, origin, run, n + 1, probe.q) else Complete(run, probe.q)
  {
    hide Taken, RowsShow, RowShows, RowRecords, Captured, Completed, StepSound, Tracks, Complete;
    CompletionTracks(c, origin, run, n, probe.q);
    probe.After(run[n].row.opcode, origin + run[n].start.time + run[n].cost);
    StepsAreSound(c, run, n);
    var next := Reached(run, n + 1);
    if n + 1 < |run| {
      RunFacts(c, run, n + 1);
      NextCapture(c, origin, run, n + 1, probe.q);
    } else {
      LastCapture(c, origin, run, probe.q);
    }
    hide IsRun, Ready;
    probe.Before(CaptureOf(next), origin + next.time, true, c.nmiVector);
  }

  /** Observing a whole run, as the instrumented core does: one row for each state,
      with the cycle, cursor, cost, entry and kind of the timeline, and no error. */
  method ObserveRun(c: Config, origin: nat, run: seq<GuestMachine.Step>) returns (probe: Probe)
    requires IsRun(c, run) && 0 < |run| < MAX_ROWS && run[0].start.time == 0 && run[0].start.index == 0
    requires 0x8000 <= run[0].start.pc <= 0xFFFD && c.irqVector != c.nmiVector
    ensures Complete(run, probe.q)
  {
    hide Taken, RowsShow, RowShows, RowRecords, Captured, Completed, Configured, StepSound, Tracks, Complete;
    probe := new Probe();
    var ok := probe.Configure(run[0].start.pc, |run|, c.events);
    FirstCapture(c, origin, run, probe.q);
    probe.Before(CaptureOf(run[0].start), origin, true, c.nmiVector);
    hide Ready;
    for n := 0 to |run|
      invariant fresh(probe)
      invariant if n < |run| then Ready(c, origin, run, n, probe.q) else Complete(run, probe.q)
    {
      ObserveStep(probe, c, origin, run, n);
    }
  }
}
