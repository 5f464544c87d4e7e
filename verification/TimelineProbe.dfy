/** The request stimulus and row recorder around an independent core
    (tools/timeline_probe.h), with the C integer widths written out. */
module TimelineProbe {
  import opened Bytes
  import opened GuestMachine
  import opened GuestSafety

  const MAX_ROWS := 113
  const MAX_EVENTS := 64

  function U8(n: int): nat {
    n % 0x100
  }

  function U32(n: int): nat {
    n % 0x1_0000_0000
  }

  /** One captured instruction boundary, without the RAM copy. */
  datatype ProbeRow = ProbeRow(cycle: nat, capture: Capture, eventIndex: nat, cost: nat, entry: nat, kind: nat,
                               opcode: byte, ordinal: nat)

  /** The registers and requests a capture reads from the core. */
  datatype Capture = Capture(pc: word, a: byte, x: byte, y: byte, p: byte, s: byte, irq: bool, nmi: bool)

  /** The static variables of the probe, and the request line and latch of the core
      it drives. Peak is the latest completion time that events were raised for. */
  datatype ProbeState = ProbeState(rows: seq<ProbeRow>, events: seq<Event>, limit: nat, eventIndex: nat, error: nat,
                                   origin: nat, beforeTime: nat, afterTime: nat, start: word, active: bool,
                                   started: bool, pending: bool, opcode: byte, line: bool, latch: bool)

  const IDLE := ProbeState([], [], 0, 0, 0, 0, 0, 0, 0, false, false, false, 0, false, false)

  // ---- the transitions ----

  function Cleared(q: ProbeState): ProbeState {
    q.(rows := [], events := [], limit := 0, eventIndex := 0, error := 0, active := false, started := false,
       pending := false)
  }

  ghost function Configured(q: ProbeState, pc: nat, steps: nat, requested: seq<Event>): ProbeState {
    var clear := Cleared(q);
    if 0x8000 <= pc <= 0xFFFD && 1 <= steps < MAX_ROWS && Increasing(requested) then
      clear.(events := requested, start := pc, limit := steps + 1, active := true)
    else clear
  }

  /** Why a capture at this time cannot become the next row; 0 if it can. */
  function Complaint(q: ProbeState, time: nat, hasRam: bool): nat {
    var zero := if q.started then q.origin else time;
    if !hasRam || time < zero || time - zero > 0xFFFF_FFFF || |q.rows| >= q.limit then 1
    else if |q.rows| > 0 && (!q.pending || time < q.afterTime) then 2
    else if |q.rows| > 0 && time != q.afterTime && time != q.afterTime + 7 then 3
    else 0
  }

  /** The row a capture becomes. The entry kind is read off the vector the core took. */
  function NextRow(q: ProbeState, now: Capture, time: nat, nmiVector: word): ProbeRow {
    var zero := if q.started then q.origin else time;
    var first := |q.rows| == 0;
    var gap := if first then 0 else time - q.afterTime;
    ProbeRow(U32(time - zero), now, U8(q.eventIndex), if first then 0 else U8(q.afterTime - q.beforeTime), U8(gap),
             if gap == 0 then 0 else if now.pc == nmiVector then 2 else 1, if first then 0 else q.opcode,
             |q.rows| % 0x1_0000)
  }

  /** tl_before: a capture in front of an instruction. */
  function Captured(q: ProbeState, now: Capture, time: nat, hasRam: bool, nmiVector: word): ProbeState {
    if !q.active || (!q.started && now.pc != q.start) then q
    else
      var q' := q.(started := true, origin := if q.started then q.origin else time);
      var complaint := Complaint(q, time, hasRam);
      if complaint != 0 then q'.(error := complaint, active := false)
      else
        q'.(rows := q.rows + [NextRow(q, now, time, nmiVector)], pending := false, beforeTime := time,
            active := |q.rows| + 1 != q.limit)
  }

  /** tl_after: the completion of an instruction. */
  function Completed(q: ProbeState, op: byte, time: nat): ProbeState
    requires q.eventIndex <= |q.events|
  {
    if !q.active || !q.started then q
    else if time <= q.beforeTime || time - q.beforeTime > 0xFF then q.(error := 4, active := false)
    else
      var due := Consume(q.events, Requests(q.line, q.latch, q.eventIndex), if time >= q.origin then time - q.origin else 0);
      q.(afterTime := time, opcode := op, pending := true, line := due.irq, latch := due.nmi, eventIndex := due.index)
  }

  /** The probe is started exactly for a cartridge address, 1 to 112 steps and at most 64 increasing events. */
  lemma ConfiguredExactly(q: ProbeState, pc: nat, steps: nat, requested: seq<Event>)
    ensures Configured(q, pc, steps, requested).active
      <==> 0x8000 <= pc <= 0xFFFD && 1 <= steps <= 112 && |requested| <= 64 && Increasing(requested)
    ensures Configured(q, pc, steps, requested).active ==>
      (var r := Configured(q, pc, steps, requested);
       r.start == pc && r.limit == steps + 1 && r.events == requested && r.rows == [] && r.error == 0 && !r.started && !r.pending)
  {}

  // ---- what the recorded rows mean ----

  ghost predicate RowOk(events: seq<Event>, row: ProbeRow, k: nat) {
    && row.ordinal == k && row.entry <= row.cycle < 0x1_0000_0000
    && row.eventIndex == Due(events, row.cycle - row.entry)
  }

  /** Nothing but one instruction, and possibly an entry, lies between two rows. */
  ghost predicate RowFollows(previous: ProbeRow, row: ProbeRow) {
    && row.cycle == previous.cycle + row.cost + row.entry
    && 0 < row.cost <= 0xFF && (row.entry == 0 || row.entry == 7)
  }

  ghost predicate RowsAgree(events: seq<Event>, rows: seq<ProbeRow>) {
    && (forall k {:trigger rows[k]} :: 0 <= k < |rows| ==> RowOk(events, rows[k], k))
    && (forall k {:trigger rows[k]} :: 0 < k < |rows| ==> RowFollows(rows[k - 1], rows[k]))
    && (|rows| > 0 ==> rows[0].cycle == rows[0].entry == 0)
  }

  /** When the events that the cursor counts were raised. */
  function Settled(q: ProbeState): int
    requires |q.rows| > 0
  {
    var last := q.rows[|q.rows| - 1];
    if q.pending then q.afterTime - q.origin else last.cycle - last.entry
  }

  ghost predicate Valid(q: ProbeState) {
    && Increasing(q.events) && q.eventIndex <= |q.events| && |q.rows| <= q.limit <= MAX_ROWS
    && RowsAgree(q.events, q.rows)
    && (q.active ==> q.error == 0 && |q.rows| < q.limit)
    && (q.active && !q.started ==> q.rows == [] && q.eventIndex == 0 && !q.pending)
    && (q.active && q.started ==>
          && |q.rows| > 0
          && q.beforeTime == q.origin + q.rows[|q.rows| - 1].cycle
          && (q.pending ==> q.beforeTime < q.afterTime <= q.beforeTime + 0xFF)
          && q.eventIndex == Due(q.events, Settled(q)))
  }

  /** The probe will take a completion at this time. */
  predicate Accepts(q: ProbeState, time: nat) {
    q.active && q.started && q.beforeTime < time <= q.beforeTime + 0xFF
  }

  /** No event already delivered lies after the reported completion. */
  ghost predicate Timely(q: ProbeState, time: nat) {
    Accepts(q, time) ==> q.eventIndex <= Due(q.events, time - q.origin)
  }

  lemma ConfiguredIsValid(q: ProbeState, pc: nat, steps: nat, requested: seq<Event>)
    ensures Valid(Configured(q, pc, steps, requested))
  {
  }

  lemma NoneDueAtZero(events: seq<Event>)
    requires Increasing(events)
    ensures Due(events, 0) == 0
  {
    DueIsPrefix(events, 0, 0);
  }

  /** No field of the next row loses anything to its C type. */
  lemma NextRowIsExact(q: ProbeState, now: Capture, time: nat, nmiVector: word)
    requires Valid(q) && q.active && (q.started || now.pc == q.start) && Complaint(q, time, true) == 0
    ensures var row := NextRow(q, now, time, nmiVector);
      && RowOk(q.events, row, |q.rows|) && row.eventIndex == q.eventIndex
      && row.cycle == (if q.started then time - q.origin else 0)
      && (q.started ==> RowFollows(q.rows[|q.rows| - 1], row) && row.cost == q.afterTime - q.beforeTime
                        && row.entry == time - q.afterTime)
      && (!q.started ==> row.cycle == row.entry == 0)
  {
    hide Due, RowsAgree;
    NoneDueAtZero(q.events);
  }

  lemma RowsExtend(events: seq<Event>, rows: seq<ProbeRow>, row: ProbeRow)
    requires RowsAgree(events, rows) && RowOk(events, row, |rows|)
    requires if rows == [] then row.cycle == row.entry == 0 else RowFollows(rows[|rows| - 1], row)
    ensures RowsAgree(events, rows + [row])
  {
    hide RowOk, RowFollows;
  }

  lemma CapturedIsValid(q: ProbeState, now: Capture, time: nat, hasRam: bool, nmiVector: word)
    requires Valid(q)
    ensures Valid(Captured(q, now, time, hasRam, nmiVector))
  {
    hide NextRow, RowsAgree, RowFollows, Due;
    if q.active && (q.started || now.pc == q.start) && Complaint(q, time, hasRam) == 0 {
      NextRowIsExact(q, now, time, nmiVector);
      RowsExtend(q.events, q.rows, NextRow(q, now, time, nmiVector));
      RowsStartAtZero(q);
    }
  }

  lemma RowsStartAtZero(q: ProbeState)
    requires Valid(q)
    ensures |q.rows| > 0 ==> q.rows[0].cycle == q.rows[0].entry == 0
  {
    hide Due;
  }

  /** A completion keeps the rows in agreement exactly when it is timely. */
  lemma CompletedIsValid(q: ProbeState, op: byte, time: nat)
    requires Valid(q)
    ensures Valid(Completed(q, op, time)) <==> Timely(q, time)
  {
    hide RowsAgree, Due, Consume;
    if Accepts(q, time) {
      ConsumeReaches(q.events, Requests(q.line, q.latch, q.eventIndex), time - q.origin);
    }
  }

  /** Completions are timely while the clock does not go back between two of them. */
  lemma ForwardIsTimely(q: ProbeState, time: nat)
    requires Valid(q) && (q.active && q.started && q.pending ==> time >= q.afterTime)
    ensures Timely(q, time)
  {
    hide RowsAgree, Due;
    if Accepts(q, time) {
      DueGrows(q.events, Settled(q), time - q.origin);
    }
  }

  /** A completion reported again with an earlier time does break the rows: the
      cursor has already passed an event that the recorded clock has not reached. */
  lemma RepeatedCompletionMiscounts()
    ensures var q := Configured(IDLE, 0x8000, 2, [Event(9, true, false)]);
      var now := Capture(0x8000, 0, 0, 0, 0, 0, false, false);
      var r := Captured(Completed(Completed(Captured(q, now, 100, true, 0), 0xEA, 110), 0xEA, 102), now, 102, true, 0);
      r.error == 0 && |r.rows| == 2 && r.rows[1].eventIndex == 1 && Due(r.events, r.rows[1].cycle - r.rows[1].entry) == 0
  {
    var events := [Event(9, true, false)];
    assert Increasing(events);
    assert Due(events, 2) == 0 by { assert events[..0] == []; }
    assert Consume(events, Requests(false, false, 0), 10) == Requests(true, false, 1);
  }

  // ---- whole sequences of calls ----

  datatype Call = BeforeCall(now: Capture, time: nat, hasRam: bool, nmiVector: word) | AfterCall(opcode: byte, time: nat)

  function Called(q: ProbeState, call: Call): ProbeState
    requires q.eventIndex <= |q.events|
  {
    match call
    case BeforeCall(now, time, hasRam, nmiVector) => Captured(q, now, time, hasRam, nmiVector)
    case AfterCall(opcode, time) => Completed(q, opcode, time)
  }

  /** The state after a sequence of calls; None once a completion is not timely. */
  ghost function Trace(q: ProbeState, calls: seq<Call>): (r: Option<ProbeState>)
    requires Valid(q)
    ensures r.Some? ==> Valid(r.value)
    decreases |calls|
  {
    if calls == [] then Some(q)
    else
      var call := calls[|calls| - 1];
      match Trace(q, calls[..|calls| - 1])
      case None => None
      case Some(before) =>
        if call.AfterCall? && !Timely(before, call.time) then None
        else
          CallKeepsValid(before, call);
          Some(Called(before, call))
  }

  lemma CallKeepsValid(q: ProbeState, call: Call)
    requires Valid(q) && (call.AfterCall? ==> Timely(q, call.time))
    ensures Valid(Called(q, call))
  {
    hide Valid, Captured, Completed;
    match call
    case BeforeCall(now, time, hasRam, nmiVector) => CapturedIsValid(q, now, time, hasRam, nmiVector);
    case AfterCall(opcode, time) => CompletedIsValid(q, opcode, time);
  }

  /** From any configuration and after any timely calls, each row's cycle is the one
      before it plus its cost and entry, and its cursor counts exactly the events due
      before that entry. */
  lemma RowsAlwaysAgree(pc: nat, steps: nat, events: seq<Event>, calls: seq<Call>)
    ensures Valid(Configured(IDLE, pc, steps, events))
    ensures var r := Trace(Configured(IDLE, pc, steps, events), calls);
      r.Some? ==> var rows := r.value.rows;
        && (|rows| > 0 ==> rows[0].cycle == rows[0].entry == 0)
        && (forall k {:trigger rows[k]} :: 0 <= k < |rows| ==>
              rows[k].ordinal == k && rows[k].entry <= rows[k].cycle < 0x1_0000_0000
              && rows[k].eventIndex == Due(r.value.events, rows[k].cycle - rows[k].entry))
        && (forall k {:trigger rows[k]} :: 0 < k < |rows| ==>
              rows[k].cycle == rows[k - 1].cycle + rows[k].cost + rows[k].entry
              && 0 < rows[k].cost < 0x100 && (rows[k].entry == 0 || rows[k].entry == 7))
  {
    ConfiguredIsValid(IDLE, pc, steps, events);
  }

  // ---- the probe object ----

  class Probe {
    /** The static variables, updated field by field. */
    var q: ProbeState

    constructor ()
      ensures q == IDLE
    {
      q := IDLE;
    }

    method Configure(pc: nat, steps: nat, requested: seq<Event>) returns (ok: bool)
      modifies this
      ensures q == Configured(old(q), pc, steps, requested) && ok == q.active
    {
      q := q.(active := false, started := false, pending := false);
      q := q.(rows := [], error := 0, eventIndex := 0, events := [], limit := 0);
      if pc < 0x8000 || pc > 0xFFFD || steps == 0 || steps >= MAX_ROWS || |requested| > MAX_EVENTS {
        return false;
      }
      var admitted := CheckEvents(requested);
      if !admitted {
        return false;
      }
      q := q.(events := requested, start := pc, limit := steps + 1, active := true);
      ok := true;
    }

    method Before(now: Capture, time: nat, hasRam: bool, nmiVector: word)
      modifies this
      ensures q == Captured(old(q), now, time, hasRam, nmiVector)
    {
      if !q.active {
        return;
      }
      if !q.started {
        if now.pc != q.start {
          return;
        }
        q := q.(started := true, origin := time);
      }
      if !hasRam || time < q.origin || time - q.origin > 0xFFFF_FFFF || |q.rows| >= q.limit {
        q := q.(error := 1, active := false);
        return;
      }
      var row := ProbeRow(U32(time - q.origin), now, U8(q.eventIndex), 0, 0, 0, 0, |q.rows| % 0x1_0000);
      if |q.rows| > 0 {
        if !q.pending || time < q.afterTime {
          q := q.(error := 2, active := false);
          return;
        }
        var gap := time - q.afterTime;
        if gap != 0 && gap != 7 {
          q := q.(error := 3, active := false);
          return;
        }
        row := row.(cost := U8(q.afterTime - q.beforeTime), entry := U8(gap),
                    kind := if gap != 0 then if now.pc == nmiVector then 2 else 1 else 0, opcode := q.opcode);
      }
      q := q.(rows := q.rows + [row], pending := false, beforeTime := time);
      if |q.rows| == q.limit {
        q := q.(active := false);
      }
    }

    method After(op: byte, time: nat)
      requires q.eventIndex <= |q.events| && (q.active && q.started ==> q.origin <= q.beforeTime)
      modifies this
      ensures q == Completed(old(q), op, time)
    {
      if !q.active || !q.started {
        return;
      }
      if time <= q.beforeTime || time - q.beforeTime > 0xFF {
        q := q.(error := 4, active := false);
        return;
      }
      q := q.(afterTime := time, opcode := op, pending := true);
      var elapsed := time - q.origin;
      ghost var entry := q;
      while q.eventIndex < |q.events| && q.events[q.eventIndex].cycle <= elapsed
        invariant q.eventIndex <= |q.events|
        invariant q == entry.(line := q.line, latch := q.latch, eventIndex := q.eventIndex)
        invariant Consume(q.events, Requests(q.line, q.latch, q.eventIndex), elapsed)
          == Consume(q.events, Requests(entry.line, entry.latch, entry.eventIndex), elapsed)
      {
        var e := q.events[q.eventIndex];
        q := q.(eventIndex := q.eventIndex + 1);
        q := q.(line := e.irq);
        if e.nmi {
          q := q.(latch := true);
        }
      }
    }
  }

  /** The first n events are positive, and each is later than the one before it. */
  predicate Stepping(events: seq<Event>, n: nat)
    requires n <= |events|
  {
    forall j {:trigger events[j]} :: 0 <= j < n ==> events[j].cycle > (if j > 0 then events[j - 1].cycle else 0)
  }

  lemma {:induction false} SteppingOrders(events: seq<Event>, i: nat, j: nat)
    requires i < j < |events| && Stepping(events, |events|)
    ensures events[i].cycle < events[j].cycle
    decreases j
  {
    assert events[j].cycle > events[j - 1].cycle;
    if i < j - 1 {
      SteppingOrders(events, i, j - 1);
    }
  }

  /** Comparing neighbours is enough. */
  lemma SteppingIsIncreasing(events: seq<Event>)
    requires |events| <= MAX_EVENTS
    ensures Stepping(events, |events|) <==> Increasing(events)
  {
    if Stepping(events, |events|) {
      forall i, j | 0 <= i < j < |events| ensures events[i].cycle < events[j].cycle {
        hide Stepping;
        SteppingOrders(events, i, j);
      }
    }
  }

  method CheckEvents(events: seq<Event>) returns (ok: bool)
    requires |events| <= MAX_EVENTS
    ensures ok <==> Increasing(events)
  {
    hide Increasing;
    SteppingIsIncreasing(events);
    for i := 0 to |events|
      invariant Stepping(events, i)
    {
      if events[i].cycle == 0 || (i > 0 && events[i].cycle <= events[i - 1].cycle) {
        return false;
      }
    }
    ok := true;
  }
}
