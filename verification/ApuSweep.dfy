/** The pulse sweep units layered over the audio counters (tools/apu_sweep_model.py). */
module ApuSweep {
  import opened Bytes
  import A = ApuModel
  import C = ApuClocks

  datatype Pulse = Pulse(period: nat, divider: nat, reload: bool)

  datatype Sweep = Sweep(base: A.Apu, pulses: seq<Pulse>)

  predicate Shaped(s: Sweep) {
    A.Shaped(s.base) && |s.pulses| == 2
  }

  function Initial(): (s: Sweep)
    ensures Shaped(s)
  {
    Sweep(A.Initial(), [Pulse(0, 0, false), Pulse(0, 0, false)])
  }

  // ---- one channel ----

  function Power(shift: nat): (r: nat)
    ensures r > 0
  {
    if shift == 0 then 1 else if shift == 1 then 2 else if shift == 2 then 4 else if shift == 3 then 8
    else if shift == 4 then 16 else if shift == 5 then 32 else if shift == 6 then 64 else 128
  }

  function Shift(control: byte): nat {
    control % 8
  }

  predicate Negates(control: byte) {
    control / 8 % 2 == 1
  }

  predicate Sweeps(control: byte) {
    control >= 0x80 && Shift(control) > 0
  }

  /** The divider's reload value. */
  function Interval(control: byte): nat {
    control / 16 % 8
  }

  function Change(period: nat, control: byte): nat {
    period / Power(Shift(control))
  }

  /** The negated period before it is cut to eleven bits; channel 0 subtracts one more. */
  function Lowered(period: nat, control: byte, c: nat): int {
    period - Change(period, control) - (if c == 0 then 1 else 0)
  }

  function Target(period: nat, control: byte, c: nat): nat {
    if Negates(control) then Lowered(period, control, c) % 0x800 else period + Change(period, control)
  }

  predicate Muted(period: nat, control: byte, c: nat) {
    period < 8 || (!Negates(control) && Target(period, control, c) > 0x7FF)
  }

  predicate Updates(p: Pulse, control: byte, c: nat) {
    p.divider == 0 && Sweeps(control) && !Muted(p.period, control, c)
  }

  function ClockPulse(p: Pulse, control: byte, c: nat): Pulse {
    var q := if Updates(p, control, c) then p.(period := Target(p.period, control, c)) else p;
    if p.divider == 0 || p.reload then Pulse(q.period, Interval(control), false) else q.(divider := p.divider - 1)
  }

  // ---- the layered counters ----

  function Control(s: Sweep, c: nat): byte
    requires Shaped(s) && c < 2
  {
    s.base.regs[4 * c + 1]
  }

  function Half(s: Sweep): (r: Sweep)
    requires Shaped(s)
    ensures Shaped(r)
  {
    Sweep(A.Half(s.base), [ClockPulse(s.pulses[0], Control(s, 0), 0), ClockPulse(s.pulses[1], Control(s, 1), 1)])
  }

  function Quarter(s: Sweep): (r: Sweep)
    requires Shaped(s)
    ensures Shaped(r)
  {
    s.(base := A.Quarter(s.base))
  }

  function Clocked(s: Sweep, clocks: seq<A.Clock>): (r: Sweep)
    requires Shaped(s)
    ensures Shaped(r)
    decreases |clocks|
  {
    if clocks == [] then s
    else Clocked(if clocks[0].HalfClock? then Half(s) else Quarter(s), clocks[1..])
  }

  /** What a write to the registers of a pulse does to its sweep unit. */
  function StoredPulse(p: Pulse, register: nat, value: byte): Pulse {
    if register == 1 then p.(reload := true)
    else if register == 2 then p.(period := p.period / 0x100 % 8 * 0x100 + value)
    else if register == 3 then p.(period := p.period % 0x100 + value % 8 * 0x100)
    else p
  }

  function StoredPulses(pulses: seq<Pulse>, index: nat, value: byte): (r: seq<Pulse>)
    requires |pulses| == 2
    ensures |r| == 2
  {
    if index < 8 then pulses[index / 4 := StoredPulse(pulses[index / 4], index % 4, value)] else pulses
  }

  function Write(s: Sweep, address: int, value: int): (r: Option<Sweep>)
    requires Shaped(s)
    ensures r.Some? ==> Shaped(r.value)
  {
    if !A.Register(address) || !(0 <= value <= 0xFF) then None
    else
      var index := address - 0x4000;
      var t := Clocked(s.(base := A.Stored(s.base, index, value)), A.WriteClocks(index, value));
      Some(t.(pulses := StoredPulses(t.pulses, index, value)))
  }

  function PhaseStep(s: Sweep): (r: Sweep)
    requires Shaped(s)
    ensures Shaped(r)
  {
    var five := A.FiveStep(s.base);
    var t := Clocked(s, A.PhaseClocks(five, s.base.phase));
    t.(base := t.base.(phase := (s.base.phase + 1) % A.Steps(five)))
  }

  lemma ClocksInOrder(s: Sweep)
    requires Shaped(s)
    ensures Clocked(s, [A.HalfClock, A.QuarterClock]) == Quarter(Half(s))
    ensures Clocked(s, [A.HalfClock]) == Half(s) && Clocked(s, [A.QuarterClock]) == Quarter(s) && Clocked(s, []) == s
  {
    hide Half, Quarter;
    assert [A.HalfClock, A.QuarterClock][1..] == [A.QuarterClock];
    assert Clocked(Half(s), []) == Half(s);
    assert Clocked(Quarter(s), []) == Quarter(s) && Clocked(Quarter(Half(s)), []) == Quarter(Half(s));
    assert Clocked(Half(s), [A.QuarterClock]) == Quarter(Half(s));
  }

  lemma ClocksOfPhase(s: Sweep)
    requires Shaped(s)
    ensures var half, quarter := A.HalfAt(A.FiveStep(s.base), s.base.phase), A.QuarterAt(A.FiveStep(s.base), s.base.phase);
      Clocked(s, A.PhaseClocks(A.FiveStep(s.base), s.base.phase))
        == var t := if half then Half(s) else s; if quarter then Quarter(t) else t
  {
    hide Half, Quarter, Clocked, A.PhaseClocks;
    ClocksInOrder(s);
    A.PhaseClocksAreDue(A.FiveStep(s.base), s.base.phase);
  }

  function PhaseSteps(s: Sweep, t: nat): (r: Sweep)
    requires Shaped(s)
    ensures Shaped(r)
  {
    if t == 0 then s else PhaseStep(PhaseSteps(s, t - 1))
  }

  function Frame(s: Sweep): (r: Sweep)
    requires Shaped(s)
    ensures Shaped(r)
  {
    var t := PhaseSteps(s, 4); t.(base := t.base.(frames := t.base.frames + 1))
  }

  function Handle(s: Sweep, e: A.Event): (r: Sweep)
    requires Shaped(s)
    ensures Shaped(r)
  {
    match e
    case FrameEvent => Frame(s)
    case WriteEvent(address, value) => var w := Write(s, address, value); if w.Some? then w.value else s
  }

  function Run(s: Sweep, events: seq<A.Event>): (r: Sweep)
    requires Shaped(s)
    ensures Shaped(r)
    decreases |events|
  {
    if events == [] then s else Handle(Run(s, events[..|events| - 1]), events[|events| - 1])
  }

  predicate Silenced(s: Sweep, c: int)
    requires Shaped(s)
  {
    0 <= c < 2 && Muted(s.pulses[c].period, Control(s, c), c)
  }

  function Volume(s: Sweep, c: int): Option<nat>
    requires Shaped(s)
  {
    var v := A.Volume(s.base, c); if v.Some? && Silenced(s, c) then Some(0) else v
  }

  // ---- the layer does not disturb the base ----

  lemma {:induction false} ClockedBase(s: Sweep, clocks: seq<A.Clock>)
    requires Shaped(s)
    ensures Clocked(s, clocks).base == A.Clocked(s.base, clocks)
    decreases |clocks|
  {
    hide A.Half, A.Quarter, ClockPulse;
    if clocks != [] {
      ClockedBase(if clocks[0].HalfClock? then Half(s) else Quarter(s), clocks[1..]);
    }
  }

  lemma {:induction false} PhaseStepsBase(s: Sweep, t: nat)
    requires Shaped(s)
    ensures PhaseSteps(s, t).base == A.PhaseSteps(s.base, t)
  {
    hide A.Clocked, Clocked, A.PhaseClocks;
    if t > 0 {
      PhaseStepsBase(s, t - 1);
      var u := PhaseSteps(s, t - 1);
      ClockedBase(u, A.PhaseClocks(A.FiveStep(u.base), u.base.phase));
    }
  }

  lemma {:induction false} HandleBase(s: Sweep, e: A.Event)
    requires Shaped(s)
    ensures Handle(s, e).base == A.Handle(s.base, e)
  {
    hide A.Clocked, Clocked, A.PhaseSteps, PhaseSteps, A.Stored, StoredPulses, A.WriteClocks;
    match e
    case FrameEvent => PhaseStepsBase(s, 4);
    case WriteEvent(address, value) =>
      if A.Register(address) && 0 <= value <= 0xFF {
        var index := address - 0x4000;
        ClockedBase(s.(base := A.Stored(s.base, index, value)), A.WriteClocks(index, value));
      }
  }

  /** Over every run the base fields are those of the counters alone, and a volume is theirs or 0. */
  lemma {:induction false} SweepSimulatesBase(s: Sweep, events: seq<A.Event>, c: int)
    requires Shaped(s)
    ensures var r := Run(s, events); var b := A.Run(s.base, events);
      r.base == b
      && Volume(r, c) == (if A.Volume(b, c).None? then None else if Silenced(r, c) then Some(0) else A.Volume(b, c))
    decreases |events|
  {
    if events != [] {
      var before := events[..|events| - 1];
      SweepSimulatesBase(s, before, c);
      HandleBase(Run(s, before), events[|events| - 1]);
    }
  }

  /** What holds of every run of the counters holds of the layered ones: the phase bound, the length countdown of a
    * voice left alone, and the silence of a voice that nothing starts. */
  lemma {:induction false} InheritedLaws(s: Sweep, events: seq<A.Event>, c: nat)
    requires Shaped(s) && c < 4 && C.InPhase(s.base)
    ensures C.InPhase(Run(s, events).base)
    ensures (forall i {:trigger events[i]} :: 0 <= i < |events| ==> C.LeavesLength(events[i], c)) ==>
      C.OnlyCounted(s.base, Run(s, events).base, c)
    ensures (s.base.lengths[c] == 0
             && forall i {:trigger events[i]} :: 0 <= i < |events| ==> !C.Starts(A.Run(s.base, events[..i]), events[i], c)) ==>
      Volume(Run(s, events), c) == Some(0)
  {
    hide A.Run, Run, A.Volume, C.OnlyCounted, C.InPhase, C.Starts, C.LeavesLength;
    SweepSimulatesBase(s, events, c);
    C.PhaseBound(s.base, events);
    if forall i {:trigger events[i]} :: 0 <= i < |events| ==> C.LeavesLength(events[i], c) {
      C.LengthCountdown(s.base, events, c);
    }
    if s.base.lengths[c] == 0
      && (forall i {:trigger events[i]} :: 0 <= i < |events| ==> !C.Starts(A.Run(s.base, events[..i]), events[i], c))
    {
      C.SilentVoiceStaysSilent(s.base, events, c);
    }
  }

  // ---- bounds ----

  predicate Bounded(p: Pulse) {
    p.period <= 0x7FF && p.divider <= 7
  }

  /** Whenever a negated update happens, cutting the target to eleven bits changes nothing. */
  lemma UpdateNeedsNoCut(p: Pulse, control: byte, c: nat)
    requires Bounded(p) && Updates(p, control, c) && Negates(control)
    ensures Target(p.period, control, c) == Lowered(p.period, control, c) && 0 <= Lowered(p.period, control, c) <= p.period
  {
    HalfAtMost(p.period, Power(Shift(control)));
  }

  lemma HalfAtMost(period: nat, power: nat)
    requires power == 2 || power == 4 || power == 8 || power == 16 || power == 32 || power == 64 || power == 128
    ensures 2 * (period / power) <= period
  {}

  lemma ClockKeepsBounds(p: Pulse, control: byte, c: nat)
    requires Bounded(p)
    ensures Bounded(ClockPulse(p, control, c))
  {
    if Updates(p, control, c) && Negates(control) {
      UpdateNeedsNoCut(p, control, c);
    }
  }

  predicate InRange(s: Sweep)
    requires Shaped(s)
  {
    Bounded(s.pulses[0]) && Bounded(s.pulses[1])
  }

  // ---- following one channel through a run ----

  /** The sweep unit after n half clocks under one control byte. */
  function Swept(p: Pulse, control: byte, c: nat, n: nat): Pulse {
    if n == 0 then p else ClockPulse(Swept(p, control, c, n - 1), control, c)
  }

  lemma {:induction false} SweptCompose(p: Pulse, control: byte, c: nat, m: nat, n: nat)
    ensures Swept(Swept(p, control, c, m), control, c, n) == Swept(p, control, c, m + n)
  {
    hide ClockPulse;
    if n > 0 {
      SweptCompose(p, control, c, m, n - 1);
      assert m + n - 1 == m + (n - 1);
    }
  }

  lemma {:induction false} SweptBounded(p: Pulse, control: byte, c: nat, n: nat)
    requires Bounded(p)
    ensures Bounded(Swept(p, control, c, n))
  {
    hide ClockPulse, Bounded;
    if n > 0 {
      SweptBounded(p, control, c, n - 1);
      ClockKeepsBounds(Swept(p, control, c, n - 1), control, c);
    }
  }

  /** From s to r, channel c was only swept, once a half clock. */
  predicate OnlySwept(s: Sweep, r: Sweep, c: nat)
    requires Shaped(s) && Shaped(r) && c < 2
  {
    r.base.halves >= s.base.halves && Control(r, c) == Control(s, c)
    && r.pulses[c] == Swept(s.pulses[c], Control(s, c), c, r.base.halves - s.base.halves)
  }

  lemma OnlySweptTransitive(s: Sweep, t: Sweep, r: Sweep, c: nat)
    requires Shaped(s) && Shaped(t) && Shaped(r) && c < 2 && OnlySwept(s, t, c) && OnlySwept(t, r, c)
    ensures OnlySwept(s, r, c)
  {
    SweptCompose(s.pulses[c], Control(s, c), c, t.base.halves - s.base.halves, r.base.halves - t.base.halves);
  }

  lemma ClockOnlySweeps(s: Sweep, half: bool, c: nat)
    requires Shaped(s) && c < 2
    ensures OnlySwept(s, if half then Half(s) else Quarter(s), c)
  {
    hide ClockPulse;
    assert Swept(s.pulses[c], Control(s, c), c, 0) == s.pulses[c];
    assert Swept(s.pulses[c], Control(s, c), c, 1) == ClockPulse(s.pulses[c], Control(s, c), c);
  }

  lemma {:induction false} ClockedOnlySweeps(s: Sweep, clocks: seq<A.Clock>, c: nat)
    requires Shaped(s) && c < 2
    ensures OnlySwept(s, Clocked(s, clocks), c)
    decreases |clocks|
  {
    if clocks != [] {
      hide OnlySwept, Half, Quarter;
      var one := if clocks[0].HalfClock? then Half(s) else Quarter(s);
      ClockOnlySweeps(s, clocks[0].HalfClock?, c);
      ClockedOnlySweeps(one, clocks[1..], c);
      OnlySweptTransitive(s, one, Clocked(s, clocks), c);
    }
  }

  lemma {:induction false} PhaseStepsOnlySweep(s: Sweep, t: nat, c: nat)
    requires Shaped(s) && c < 2
    ensures OnlySwept(s, PhaseSteps(s, t), c)
  {
    hide Clocked, A.PhaseClocks, ClockPulse;
    if t > 0 {
      PhaseStepsOnlySweep(s, t - 1, c);
      var u := PhaseSteps(s, t - 1);
      ClockedOnlySweeps(u, A.PhaseClocks(A.FiveStep(u.base), u.base.phase), c);
      OnlySweptTransitive(s, u, PhaseSteps(s, t), c);
    }
  }

  /** The event writes neither the sweep nor the period registers of channel c. */
  predicate LeavesSweep(e: A.Event, c: nat) {
    e.WriteEvent? ==> e.address != 0x4001 + 4 * c && e.address != 0x4002 + 4 * c && e.address != 0x4003 + 4 * c
  }

  lemma {:induction false} HandleOnlySweeps(s: Sweep, e: A.Event, c: nat)
    requires Shaped(s) && c < 2 && LeavesSweep(e, c)
    ensures OnlySwept(s, Handle(s, e), c)
  {
    hide A.Clocked, Clocked, PhaseSteps, A.WriteClocks, ClockPulse;
    match e
    case FrameEvent => PhaseStepsOnlySweep(s, 4, c);
    case WriteEvent(address, value) =>
      if A.Register(address) && 0 <= value <= 0xFF {
        var index := address - 0x4000;
        ClockedOnlySweeps(s.(base := A.Stored(s.base, index, value)), A.WriteClocks(index, value), c);
      }
  }

  /** Over any run without writes to its sweep registers, a channel's sweep unit depends on the half clocks alone. */
  lemma {:induction false} RunOnlySweeps(s: Sweep, events: seq<A.Event>, c: nat)
    requires Shaped(s) && c < 2 && forall i {:trigger events[i]} :: 0 <= i < |events| ==> LeavesSweep(events[i], c)
    ensures OnlySwept(s, Run(s, events), c)
    decreases |events|
  {
    hide OnlySwept, Handle, LeavesSweep;
    if events != [] {
      var before := events[..|events| - 1];
      RunOnlySweeps(s, before, c);
      HandleOnlySweeps(Run(s, before), events[|events| - 1], c);
      OnlySweptTransitive(s, Run(s, before), Run(s, events), c);
    } else {
      OnlySweptItself(s, c);
    }
  }

  lemma OnlySweptItself(s: Sweep, c: nat)
    requires Shaped(s) && c < 2
    ensures OnlySwept(s, s, c)
  {}

  lemma StoreKeepsBounds(p: Pulse, register: nat, value: byte)
    requires Bounded(p)
    ensures Bounded(StoredPulse(p, register, value))
  {}

  lemma OnlySweptKeepsBounds(s: Sweep, r: Sweep)
    requires Shaped(s) && Shaped(r) && InRange(s) && OnlySwept(s, r, 0) && OnlySwept(s, r, 1)
    ensures InRange(r)
  {
    hide Swept, Bounded;
    SweptBounded(s.pulses[0], Control(s, 0), 0, r.base.halves - s.base.halves);
    SweptBounded(s.pulses[1], Control(s, 1), 1, r.base.halves - s.base.halves);
  }

  lemma {:induction false} HandleKeepsRange(s: Sweep, e: A.Event)
    requires Shaped(s) && InRange(s)
    ensures InRange(Handle(s, e))
  {
    hide A.Clocked, Clocked, PhaseSteps, A.WriteClocks, StoredPulse, Bounded, OnlySwept, A.Stored;
    match e
    case FrameEvent =>
      HandleOnlySweeps(s, e, 0);
      HandleOnlySweeps(s, e, 1);
      OnlySweptKeepsBounds(s, Handle(s, e));
    case WriteEvent(address, value) =>
      if A.Register(address) && 0 <= value <= 0xFF {
        var index := address - 0x4000;
        var t := s.(base := A.Stored(s.base, index, value));
        var u := Clocked(t, A.WriteClocks(index, value));
        ClockedOnlySweeps(t, A.WriteClocks(index, value), 0);
        ClockedOnlySweeps(t, A.WriteClocks(index, value), 1);
        OnlySweptKeepsBounds(t, u);
        if index < 8 {
          StoreKeepsBounds(u.pulses[index / 4], index % 4, value);
        }
      }
  }

  /** No run leaves the eleven bits of a period or the three of a divider. */
  lemma {:induction false} RunKeepsRange(s: Sweep, events: seq<A.Event>)
    requires Shaped(s) && InRange(s)
    ensures InRange(Run(s, events))
    decreases |events|
  {
    hide InRange, Handle;
    if events != [] {
      RunKeepsRange(s, events[..|events| - 1]);
      HandleKeepsRange(Run(s, events[..|events| - 1]), events[|events| - 1]);
    }
  }

  // ---- a falling sweep ----

  predicate Falls(control: byte) {
    Sweeps(control) && Negates(control)
  }

  /** Half clocks until the next update. */
  function UntilUpdate(p: Pulse, control: byte): nat {
    if p.divider == 0 then 1 else if p.reload then Interval(control) + 2 else p.divider + 1
  }

  /** Half clocks that are always enough to bring the period under 8. */
  function Deadline(p: Pulse, control: byte): nat {
    if p.period < 8 then 0 else UntilUpdate(p, control) + (Interval(control) + 1) * (p.period - 8)
  }

  lemma DeadlineIsShort(p: Pulse, control: byte)
    requires Bounded(p)
    ensures Deadline(p, control) <= 8 * (p.period + 1)
  {
    if p.period >= 8 {
      var k := p.period - 8;
      assert (Interval(control) + 1) * k <= 8 * k;
    }
  }

  /** An update lowers the period: by one or more in channel 0, and in channel 1 unless the period is below the power. */
  lemma UpdateLowers(p: Pulse, control: byte, c: nat)
    requires Bounded(p) && Falls(control) && p.period >= 8
    ensures Target(p.period, control, c) == Lowered(p.period, control, c)
    ensures c == 0 || Shift(control) <= 3 ==> Target(p.period, control, c) < p.period
    ensures c != 0 && Shift(control) > 3 ==> Target(p.period, control, c) >= 8
    ensures c == 0 && p.period < Power(Shift(control)) ==> Target(p.period, control, c) == p.period - 1
  {
    UpdateNeedsNoCut(p.(divider := 0), control, c);
    SmallQuotients(p.period, Shift(control));
  }

  lemma SmallQuotients(period: nat, shift: nat)
    requires period >= 8 && 1 <= shift <= 7
    ensures shift <= 3 ==> period / Power(shift) >= 1
    ensures shift > 3 ==> period - period / Power(shift) >= 8
    ensures period < Power(shift) ==> period / Power(shift) == 0
  {}

  lemma Product(interval: nat, a: nat, b: nat)
    requires a <= b
    ensures (interval + 1) * a <= (interval + 1) * b
  {}

  lemma DeadlineNears(p: Pulse, control: byte, c: nat)
    requires Bounded(p) && Falls(control) && p.period >= 8 && (c == 0 || Shift(control) <= 3)
    ensures Deadline(ClockPulse(p, control, c), control) <= Deadline(p, control) - 1
    ensures c == 0 && p.period < Power(Shift(control)) ==>
      Deadline(ClockPulse(p, control, c), control) == Deadline(p, control) - 1
      && ClockPulse(p, control, c).period <= p.period
  {
    UpdateLowers(p, control, c);
    FallingUpdates(p, control, c);
    hide Target, Interval, Power, Updates, Bounded, Falls;
    if p.divider == 0 {
      var q, d := ClockPulse(p, control, c), Interval(control);
      assert UntilUpdate(q, control) == d + 1;
      if q.period >= 8 {
        Product(d, q.period - 7, p.period - 8);
        AddOne(d, q.period - 8);
        assert Deadline(q, control) == (d + 1) * (q.period - 7);
      }
    }
  }

  lemma AddOne(d: nat, k: nat)
    ensures (d + 1) * k + (d + 1) == (d + 1) * (k + 1)
  {}

  lemma FallingUpdates(p: Pulse, control: byte, c: nat)
    requires Falls(control) && p.period >= 8
    ensures Updates(p, control, c) <==> p.divider == 0
  {}

  lemma DeadlineOpens(p: Pulse, control: byte)
    ensures Deadline(p, control) == 0 <==> p.period < 8
  {
    hide Interval;
    if p.period >= 8 {
      Product(Interval(control), 0, p.period - 8);
    }
  }

  /** A falling sweep reaches a period under 8 exactly in channel 0 or when it shifts by at most 3;
    * then it is there by the deadline and stays. */
  lemma {:induction false} FallingSweep(p: Pulse, control: byte, c: nat, n: nat)
    requires Bounded(p) && Falls(control)
    ensures p.period < 8 || c == 0 || Shift(control) <= 3 ==>
      Deadline(Swept(p, control, c, n), control) <= if n <= Deadline(p, control) then Deadline(p, control) - n else 0
    ensures p.period >= 8 && c != 0 && Shift(control) > 3 ==> Swept(p, control, c, n).period >= 8
  {
    hide ClockPulse, Bounded, Falls, Deadline;
    if n > 0 {
      FallingSweep(p, control, c, n - 1);
      var q := Swept(p, control, c, n - 1);
      SweptBounded(p, control, c, n - 1);
      DeadlineOpens(p, control);
      DeadlineOpens(q, control);
      FallingClock(q, control, c);
    }
  }

  lemma FallingClock(p: Pulse, control: byte, c: nat)
    requires Bounded(p) && Falls(control)
    ensures p.period < 8 ==> Deadline(ClockPulse(p, control, c), control) == 0
    ensures p.period >= 8 && (c == 0 || Shift(control) <= 3) ==>
      Deadline(ClockPulse(p, control, c), control) <= Deadline(p, control) - 1
    ensures p.period >= 8 && c != 0 && Shift(control) > 3 ==> ClockPulse(p, control, c).period >= 8
  {
    if p.period >= 8 {
      if c == 0 || Shift(control) <= 3 {
        DeadlineNears(p, control, c);
      } else {
        UpdateLowers(p, control, c);
      }
    }
  }

  /** The deadline is exact while the shifted period is zero. */
  lemma {:induction false} DeadlineIsSharp(p: Pulse, control: byte, n: nat)
    requires Bounded(p) && Falls(control) && 8 <= p.period < Power(Shift(control))
    ensures Swept(p, control, 0, n).period < 8 <==> n >= Deadline(p, control)
    ensures n < Deadline(p, control) ==>
      (var q := Swept(p, control, 0, n); Deadline(q, control) == Deadline(p, control) - n && q.period <= p.period)
  {
    hide ClockPulse, Bounded, Falls, Power, Interval, UntilUpdate;
    DeadlineOpens(p, control);
    if n > 0 {
      DeadlineIsSharp(p, control, n - 1);
      FallingSweep(p, control, 0, n);
      SweptBounded(p, control, 0, n - 1);
      var q, next := Swept(p, control, 0, n - 1), Swept(p, control, 0, n);
      DeadlineOpens(next, control);
      if n <= Deadline(p, control) {
        DeadlineOpens(q, control);
        DeadlineNears(q, control, 0);
      }
    }
  }

  /** In any run without writes to its sweep registers, a channel that falls is muted once the half clocks
    * reach the deadline, so after 8 * (period + 1) of them at the latest; else it never is. */
  lemma {:induction false} FallingChannelIsSilenced(s: Sweep, events: seq<A.Event>, c: nat)
    requires Shaped(s) && InRange(s) && c < 2 && Falls(Control(s, c))
    requires forall i {:trigger events[i]} :: 0 <= i < |events| ==> LeavesSweep(events[i], c)
    ensures var r := Run(s, events); var p := s.pulses[c]; var clocks := r.base.halves - s.base.halves;
      Deadline(p, Control(s, c)) <= 8 * (p.period + 1)
      && if p.period < 8 || c == 0 || Shift(Control(s, c)) <= 3
         then clocks >= Deadline(p, Control(s, c)) ==> Silenced(r, c) && Volume(r, c) == Some(0)
         else !Silenced(r, c) && Volume(r, c) == A.Volume(r.base, c)
  {
    hide Run, Falls, LeavesSweep, Swept, Bounded;
    var r := Run(s, events);
    var p, control := s.pulses[c], Control(s, c);
    RunOnlySweeps(s, events, c);
    DeadlineIsShort(p, control);
    FallingSweep(p, control, c, r.base.halves - s.base.halves);
    MutedWhenFalling(control, c);
    hide Muted, A.Volume;
    assert A.Volume(r.base, c).Some? by { VolumeOfVoice(r.base, c); }
  }

  lemma VolumeOfVoice(s: A.Apu, c: nat)
    requires A.Shaped(s) && c < 4
    ensures A.Volume(s, c).Some?
  {}

  lemma MutedWhenFalling(control: byte, c: nat)
    requires Falls(control)
    ensures forall period: nat {:trigger Muted(period, control, c)} :: Muted(period, control, c) <==> period < 8
  {}
}
