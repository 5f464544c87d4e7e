/** The bounded observer of instruction visits and the checker that accepts its log
  * (tools/idle_observer.h:36-100, tools/idle_observer.py:54-84). */
module IdleObserver {
  import opened Bytes

  const LIMIT := 32768
  const LAST_FRAME := 2_000_000

  /** Largest value of a counter. */
  const TOP := 0xFFFF_FFFF_FFFF_FFFF

  type Ram = s: seq<byte> | |s| == 0x800 witness seq(0x800, _ => 0)

  datatype Config = Config(tick: int, sample: int, addresses: seq<int>, capacity: int)

  datatype Record = Record(ticks: nat, frame: nat, sample: nat, pc: word, bank: word, values: seq<byte>)

  datatype Log = Log(active: bool, records: seq<Record>, ticks: nat, samples: nat, frame: nat, overflow: bool)

  datatype Event = Frame(number: int) | Visit(pc: word, bank: word, memory: Ram)

  predicate Sound(c: Config) {
    0x8000 <= c.tick <= 0xFFFF && 0x8000 <= c.sample <= 0xFFFF && c.tick != c.sample
    && 1 <= |c.addresses| <= 16 && 1 <= c.capacity <= 32768
    && (forall i {:trigger c.addresses[i]} :: 0 <= i < |c.addresses| ==> 0 <= c.addresses[i] < 0x800)
    && (forall i, j :: 0 <= j < i < |c.addresses| ==> c.addresses[i] != c.addresses[j])
  }

  function Snapshot(c: Config, memory: Ram): seq<byte>
    requires Sound(c)
  {
    seq(|c.addresses|, i requires 0 <= i < |c.addresses| => memory[c.addresses[i]])
  }

  // ---- the recorder ----

  function Counted(log: Log): Log {
    if log.ticks == TOP then log.(overflow := true) else log.(ticks := log.ticks + 1)
  }

  function Sampled(c: Config, log: Log, pc: word, bank: word, memory: Ram): Log
    requires Sound(c)
  {
    if log.samples == TOP then log.(overflow := true)
    else
      var l := log.(samples := log.samples + 1);
      if |l.records| == c.capacity then l.(overflow := true)
      else l.(records := l.records + [Record(l.ticks, l.frame, l.samples, pc, bank, Snapshot(c, memory))])
  }

  function Step(c: Config, log: Log, pc: word, bank: word, memory: Ram): Log
    requires Sound(c)
  {
    if !log.active then log
    else
      var l := if pc == c.tick then Counted(log) else log;
      if pc == c.sample then Sampled(c, l, pc, bank, memory) else l
  }

  /** A frame number out of order is refused and changes nothing. */
  function Handle(c: Config, log: Log, e: Event): Log
    requires Sound(c)
  {
    match e
    case Frame(n) => if log.frame < n <= LAST_FRAME then log.(frame := n) else log
    case Visit(pc, bank, memory) => Step(c, log, pc, bank, memory)
  }

  const FRESH := Log(true, [], 0, 0, 0, false)

  function Observed(c: Config, events: seq<Event>): Log
    requires Sound(c)
    decreases |events|
  {
    if events == [] then FRESH else Handle(c, Observed(c, events[..|events| - 1]), events[|events| - 1])
  }

  // ---- the checker ----

  datatype Row = Row(record: Record, interval: int)

  datatype Refusal = Incomplete | Nothing | Disordered

  function TicksBefore(log: Log, k: nat): nat
    requires k <= |log.records|
  {
    if k == 0 then 0 else log.records[k - 1].ticks
  }

  function FrameBefore(log: Log, k: nat): nat
    requires k <= |log.records|
  {
    if k == 0 then 0 else log.records[k - 1].frame
  }

  predicate InOrder(c: Config, log: Log, k: nat)
    requires k < |log.records|
  {
    var r := log.records[k];
    r.sample == k + 1 && r.pc == c.sample && r.ticks >= TicksBefore(log, k) && FrameBefore(log, k) <= r.frame <= log.frame
  }

  function RowAt(log: Log, k: nat): Row
    requires k < |log.records|
  {
    Row(log.records[k], log.records[k].ticks - TicksBefore(log, k))
  }

  predicate Accepts(c: Config, log: Log) {
    !log.overflow && |log.records| == log.samples && log.records != []
    && forall k {:trigger InOrder(c, log, k)} :: 0 <= k < |log.records| ==> InOrder(c, log, k)
  }

  // ---- both as one object ----

  class Observer {
    var config: Config
    var log: Log

    constructor ()
      ensures !log.active
    {
      config := Config(0, 0, [], 0);
      log := FRESH.(active := false);
    }

    /** A refused configuration leaves the observer off. */
    method Configure(c: Config) returns (ok: bool)
      modifies this
      ensures ok <==> Sound(c)
      ensures ok ==> config == c && log == FRESH
      ensures !ok ==> !log.active
    {
      log := FRESH.(active := false);
      if !(0x8000 <= c.tick <= 0xFFFF && 0x8000 <= c.sample <= 0xFFFF && c.tick != c.sample
           && 1 <= |c.addresses| <= 16 && 1 <= c.capacity <= LIMIT) {
        return false;
      }
      for i := 0 to |c.addresses|
        invariant log == FRESH.(active := false)
        invariant forall k {:trigger c.addresses[k]} :: 0 <= k < i ==> 0 <= c.addresses[k] < 0x800
        invariant forall k, j :: 0 <= j < k < i ==> c.addresses[k] != c.addresses[j]
      {
        if !(0 <= c.addresses[i] < 0x800) {
          return false;
        }
        for j := 0 to i
          invariant forall k {:trigger c.addresses[k]} :: 0 <= k < j ==> c.addresses[i] != c.addresses[k]
        {
          if c.addresses[i] == c.addresses[j] {
            return false;
          }
        }
      }
      config := c;
      log := FRESH;
      ok := true;
    }

    method BeforeFrame(n: int) returns (ok: bool)
      requires Sound(config)
      modifies this`log
      ensures log == Handle(config, old(log), Frame(n)) && (ok <==> old(log.frame) < n <= 2_000_000)
    {
      ok := log.frame < n <= LAST_FRAME;
      if ok {
        log := log.(frame := n);
      }
    }

    method OnStep(pc: word, bank: word, memory: Ram)
      requires Sound(config)
      modifies this`log
      ensures log == Handle(config, old(log), Visit(pc, bank, memory))
    {
      if !log.active {
        return;
      }
      if pc == config.tick {
        if log.ticks == TOP {
          log := log.(overflow := true);
        } else {
          log := log.(ticks := log.ticks + 1);
        }
      }
      if pc != config.sample {
        return;
      }
      if log.samples == TOP {
        log := log.(overflow := true);
        return;
      }
      log := log.(samples := log.samples + 1);
      if |log.records| == config.capacity {
        log := log.(overflow := true);
        return;
      }
      var values: seq<byte> := [];
      for i := 0 to |config.addresses|
        invariant |values| == i && forall k {:trigger values[k]} :: 0 <= k < i ==> values[k] == memory[config.addresses[k]]
      {
        values := values + [memory[config.addresses[i]]];
      }
      assert values == Snapshot(config, memory);
      log := log.(records := log.records + [Record(log.ticks, log.frame, log.samples, pc, bank, values)]);
    }

    /** Turns the observer off and checks its log. */
    method Finish() returns (r: Result<seq<Row>, Refusal>)
      modifies this`log
      ensures log == old(log).(active := false)
      ensures r.Ok? <==> Accepts(config, old(log))
      ensures r.Ok? ==> |r.value| == |old(log).records|
      ensures r.Ok? ==> forall k {:trigger r.value[k]} :: 0 <= k < |r.value| ==> r.value[k] == RowAt(old(log), k)
      ensures r.Err? ==> r.error == (if old(log).overflow || |old(log).records| != old(log).samples then Incomplete
                                     else if old(log).records == [] then Nothing else Disordered)
    {
      ghost var was := log;
      log := log.(active := false);
      if log.overflow || |log.records| != log.samples {
        return Err(Incomplete);
      }
      if log.records == [] {
        return Err(Nothing);
      }
      var rows: seq<Row>, ticks: nat, frame: nat := [], 0, 0;
      for k := 0 to |log.records|
        invariant log == was.(active := false)
        invariant |rows| == k && ticks == TicksBefore(log, k) && frame == FrameBefore(log, k)
        invariant forall j {:trigger InOrder(config, was, j)} :: 0 <= j < k ==> InOrder(config, was, j)
        invariant forall j {:trigger rows[j]} :: 0 <= j < k ==> rows[j] == RowAt(was, j)
      {
        var row := log.records[k];
        if row.sample != k + 1 || row.pc != config.sample || row.ticks < ticks || !(frame <= row.frame <= log.frame) {
          assert !InOrder(config, was, k);
          return Err(Disordered);
        }
        assert InOrder(config, was, k);
        rows := rows + [Row(row, row.ticks - ticks)];
        ticks, frame := row.ticks, row.frame;
      }
      r := Ok(rows);
    }
  }

  // ---- what a whole session records ----

  predicate Visits(e: Event, pc: int) {
    e.Visit? && e.pc == pc
  }

  /** How often the events execute the instruction at pc. */
  function Count(events: seq<Event>, pc: int): nat {
    if events == [] then 0
    else Count(events[..|events| - 1], pc) + if Visits(events[|events| - 1], pc) then 1 else 0
  }

  /** The frame in which the events leave the session. */
  function Current(events: seq<Event>): nat {
    if events == [] then 0
    else
      var now, last := Current(events[..|events| - 1]), events[|events| - 1];
      if last.Frame? && now < last.number <= LAST_FRAME then last.number else now
  }

  function Capped(n: nat): nat {
    if n <= TOP then n else TOP
  }

  function AtMost(n: nat, limit: nat): nat {
    if n <= limit then n else limit
  }

  /** Record k belongs to the visit of the sampled instruction that k others precede. */
  predicate IsSample(c: Config, events: seq<Event>, r: Record, k: nat, i: nat)
    requires Sound(c) && i < |events|
  {
    Visits(events[i], c.sample) && Count(events[..i], c.sample) == k
    && r.ticks == Capped(Count(events[..i], c.tick)) && r.frame == Current(events[..i]) && r.sample == k + 1
    && r.pc == c.sample && r.bank == events[i].bank
    && |r.values| == |c.addresses|
    && forall j {:trigger r.values[j]} :: 0 <= j < |c.addresses| ==> r.values[j] == events[i].memory[c.addresses[j]]
  }

  predicate HasSample(c: Config, events: seq<Event>, r: Record, k: nat)
    requires Sound(c)
  {
    exists i :: 0 <= i < |events| && IsSample(c, events, r, k, i)
  }

  predicate Tallied(c: Config, events: seq<Event>, log: Log) {
    c.capacity > 0 && log.active && log.ticks == Capped(Count(events, c.tick)) && log.samples == Capped(Count(events, c.sample))
    && log.frame == Current(events) && |log.records| == AtMost(Count(events, c.sample), c.capacity)
    && (log.overflow <==> Count(events, c.tick) > TOP || Count(events, c.sample) > c.capacity)
  }

  predicate Faithful(c: Config, events: seq<Event>, log: Log)
    requires Sound(c)
  {
    Tallied(c, events, log)
    && forall k {:trigger log.records[k]} :: 0 <= k < |log.records| ==> HasSample(c, events, log.records[k], k)
  }

  lemma SampleSurvives(c: Config, events: seq<Event>, r: Record, k: nat)
    requires Sound(c) && events != [] && HasSample(c, events[..|events| - 1], r, k)
    ensures HasSample(c, events, r, k)
  {
    hide Count, Current, Capped, Snapshot;
    var before := events[..|events| - 1];
    var i :| 0 <= i < |before| && IsSample(c, before, r, k, i);
    assert before[..i] == events[..i];
    assert IsSample(c, events, r, k, i);
  }

  lemma TallyStep(c: Config, events: seq<Event>, log: Log)
    requires Sound(c) && events != [] && Tallied(c, events[..|events| - 1], log)
    ensures var next := Handle(c, log, events[|events| - 1]);
      Tallied(c, events, next)
      && if Visits(events[|events| - 1], c.sample) && |log.records| < c.capacity
         then |next.records| == |log.records| + 1 && next.records[..|log.records|] == log.records
         else next.records == log.records
  {
    hide Snapshot;
    CapacityBound(c);
    hide Sound;
  }

  lemma {:induction false} ObservedIsFaithful(c: Config, events: seq<Event>)
    requires Sound(c)
    ensures Faithful(c, events, Observed(c, events))
    decreases |events|
  {
    hide HasSample, Handle, Sound, Count, Current;
    if events == [] {
      FreshIsFaithful(c);
    } else {
      var n := |events| - 1;
      var before, e := events[..n], events[n];
      ObservedIsFaithful(c, before);
      var log, next := Observed(c, before), Observed(c, events);
      TallyStep(c, events, log);
      forall k {:trigger next.records[k]} | 0 <= k < |next.records| ensures HasSample(c, events, next.records[k], k) {
        if k < |log.records| {
          assert next.records[..|log.records|][k] == next.records[k];
          SampleSurvives(c, events, log.records[k], k);
        } else {
          CapacityBound(c);
          NewSample(c, events, log);
        }
      }
    }
  }

  lemma FreshIsFaithful(c: Config)
    requires Sound(c)
    ensures Faithful(c, [], FRESH)
  {}

  lemma NewSample(c: Config, events: seq<Event>, log: Log)
    requires Sound(c) && events != [] && log.active && Visits(events[|events| - 1], c.sample)
    requires var before := events[..|events| - 1];
      log.ticks == Capped(Count(before, c.tick)) && log.frame == Current(before) && |log.records| < c.capacity
      && |log.records| == Count(before, c.sample) == log.samples
    ensures var next := Handle(c, log, events[|events| - 1]);
      |next.records| == |log.records| + 1 && HasSample(c, events, next.records[|log.records|], |log.records|)
  {
    hide Count, Current, Capped;
    var n := |events| - 1;
    var r := Handle(c, log, events[n]).records[|log.records|];
    assert IsSample(c, events, r, |log.records|, n);
  }

  lemma {:induction false} CountGrows(events: seq<Event>, pc: int, i: nat, j: nat)
    requires i <= j <= |events|
    ensures Count(events[..i], pc) <= Count(events[..j], pc) && Current(events[..i]) <= Current(events[..j])
    ensures i < j && Visits(events[i], pc) ==> Count(events[..i], pc) < Count(events[..j], pc)
    decreases j - i
  {
    if i < j {
      CountGrows(events, pc, i, j - 1);
      assert events[..j][..j - 1] == events[..j - 1];
    }
  }

  /** Records of a session follow each other in ticks and frames. */
  lemma SamplesInOrder(c: Config, events: seq<Event>, k: nat)
    requires Sound(c) && k < |Observed(c, events).records|
    ensures InOrder(c, Observed(c, events), k)
  {
    hide Count, Current, Snapshot, Observed, Sound;
    ObservedIsFaithful(c, events);
    var log := Observed(c, events);
    assert HasSample(c, events, log.records[k], k);
    var i :| 0 <= i < |events| && IsSample(c, events, log.records[k], k, i);
    assert events[..|events|] == events;
    CountGrows(events, c.tick, i, |events|);
    if k > 0 {
      assert HasSample(c, events, log.records[k - 1], k - 1);
      var j :| 0 <= j < |events| && IsSample(c, events, log.records[k - 1], k - 1, j);
      if i < j {
        CountGrows(events, c.sample, i, j);
      }
      CountGrows(events, c.tick, j, i);
    }
  }

  /** A session's log is accepted exactly when it holds from one to capacity visits of the sampled instruction and its
    * ticks fit their counter; then record k is the snapshot at visit k, with the exact tick count there. */
  lemma {:induction false} ObserverIsComplete(c: Config, events: seq<Event>)
    requires Sound(c)
    ensures var log := Observed(c, events);
      (Accepts(c, log) <==> (1 <= Count(events, c.sample) <= c.capacity && Count(events, c.tick) < 0x1_0000_0000_0000_0000))
      && (Accepts(c, log) ==>
            |log.records| == Count(events, c.sample)
            && forall k {:trigger log.records[k]} :: 0 <= k < |log.records| ==>
                 HasSample(c, events, log.records[k], k) && log.records[k].ticks <= Count(events, c.tick))
  {
    hide Count, Current, Snapshot, Observed, HasSample, InOrder, Sound;
    ObservedIsFaithful(c, events);
    var log := Observed(c, events);
    forall k | 0 <= k < |log.records| ensures InOrder(c, log, k) && log.records[k].ticks <= log.ticks {
      SamplesInOrder(c, events, k);
      TicksWithin(c, events, k);
    }
    assert c.capacity <= LIMIT by { CapacityBound(c); }
  }

  lemma CapacityBound(c: Config)
    requires Sound(c)
    ensures 1 <= c.capacity <= LIMIT
  {}

  lemma TicksWithin(c: Config, events: seq<Event>, k: nat)
    requires Sound(c) && k < |Observed(c, events).records|
    ensures Observed(c, events).records[k].ticks <= Observed(c, events).ticks
  {
    hide Count, Current, Snapshot, Observed, Sound;
    ObservedIsFaithful(c, events);
    var r := Observed(c, events).records[k];
    assert HasSample(c, events, r, k);
    var i :| 0 <= i < |events| && IsSample(c, events, r, k, i);
    assert events[..|events|] == events;
    CountGrows(events, c.tick, i, |events|);
  }

  function Intervals(log: Log, k: nat): int
    requires k <= |log.records|
  {
    if k == 0 then 0 else Intervals(log, k - 1) + RowAt(log, k - 1).interval
  }

  /** The reported intervals are never negative and add up to the last tick count. */
  lemma {:induction false} IntervalsTelescope(c: Config, log: Log, k: nat)
    requires Accepts(c, log) && k <= |log.records|
    ensures Intervals(log, k) == TicksBefore(log, k)
    ensures k > 0 ==> RowAt(log, k - 1).interval >= 0
  {
    if k > 0 {
      IntervalsTelescope(c, log, k - 1);
      assert InOrder(c, log, k - 1);
    }
  }
}
