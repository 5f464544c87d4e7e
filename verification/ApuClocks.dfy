/** Closed forms of the audio counters, and what every run of them keeps. */
module ApuClocks {
  import opened Bytes
  import opened ApuModel

  // ---- the envelope ----

  /** The envelope after n clocks under one control byte. */
  function Decayed(e: Envelope, control: byte, n: nat): Envelope {
    if n == 0 then e else ClockEnvelope(Decayed(e, control, n - 1), control)
  }

  function Quarters(s: Apu, n: nat): (r: Apu)
    requires Shaped(s)
    ensures Shaped(r)
  {
    if n == 0 then s else Quarter(Quarters(s, n - 1))
  }

  predicate HasEnvelope(c: nat) {
    c == 0 || c == 1 || c == 3
  }

  /** The decay level after a given number of divider periods. */
  function Level(control: byte, periods: nat): nat {
    if Bit5(control) then 15 - periods % 16 else if periods <= 15 then 15 - periods else 0
  }

  lemma LevelFalls(control: byte, q: nat)
    ensures Level(control, 0) == 15
    ensures Level(control, q + 1) == if Level(control, q) > 0 then Level(control, q) - 1 else if Bit5(control) then 15 else 0
  {
    hide Bit5;
  }

  /** The clocks of q whole divider periods. */
  function Whole(p: nat, q: nat): nat {
    if q == 0 then 0 else Whole(p, q - 1) + p + 1
  }

  lemma {:induction false} WholeIsProduct(p: nat, q: nat)
    ensures Whole(p, q) == q * (p + 1)
  {
    if q > 0 {
      WholeIsProduct(p, q - 1);
    }
  }

  /** After q whole divider periods and r clocks more. */
  lemma {:induction false} DecayedPeriods(control: byte, p: nat, q: nat, r: nat)
    requires p == control as nat % 16 && r <= p
    ensures Decayed(Envelope(false, 15, p), control, Whole(p, q) + r) == Envelope(false, Level(control, q), p - r)
    decreases q, r
  {
    hide Level, Bit5;
    LevelFalls(control, if q > 0 then q - 1 else 0);
    if r > 0 {
      DecayedPeriods(control, p, q, r - 1);
    } else if q > 0 {
      DecayedPeriods(control, p, q - 1, p);
    }
  }

  lemma {:induction false} EnvelopeClosedForm(control: byte, m: nat)
    ensures var p := control as nat % 16;
      Decayed(Envelope(false, 15, p), control, m) == Envelope(false, Level(control, m / (p + 1)), p - m % (p + 1))
  {
    hide Decayed, Level;
    var p := control as nat % 16;
    DecayedPeriods(control, p, m / (p + 1), m % (p + 1));
    WholeIsProduct(p, m / (p + 1));
    assert m / (p + 1) * (p + 1) + m % (p + 1) == m;
  }

  lemma {:induction false} QuartersClockEnvelopes(s: Apu, n: nat, c: nat)
    requires Shaped(s) && HasEnvelope(c)
    ensures Quarters(s, n).regs == s.regs
    ensures Quarters(s, n).envelopes[c] == Decayed(s.envelopes[c], s.regs[4 * c], n)
  {
    if n > 0 {
      QuartersClockEnvelopes(s, n - 1, c);
    }
  }

  lemma {:induction false} DecayedLater(e: Envelope, control: byte, m: nat)
    ensures Decayed(e, control, m + 1) == Decayed(ClockEnvelope(e, control), control, m)
  {
    if m > 0 {
      DecayedLater(e, control, m - 1);
    }
  }

  /** A restarted envelope after its restarting clock and m more. */
  lemma {:induction false} RestartedEnvelope(s: Apu, c: nat, m: nat)
    requires Shaped(s) && HasEnvelope(c) && s.envelopes[c].restart
    ensures var control := s.regs[4 * c]; var p := control as nat % 16;
      Quarters(s, m + 1).envelopes[c] == Envelope(false, Level(control, m / (p + 1)), p - m % (p + 1))
  {
    QuartersClockEnvelopes(s, m + 1, c);
    DecayedLater(s.envelopes[c], s.regs[4 * c], m);
    EnvelopeClosedForm(s.regs[4 * c], m);
  }

  /** The linear counter reloads once, or for ever while its control bit is set. */
  lemma {:induction false} LinearClosedForm(s: Apu, m: nat)
    requires Shaped(s) && s.reload
    ensures var load: nat := s.regs[8] % 128; var r := Quarters(s, m + 1);
      r.regs == s.regs && r.reload == Bit7(s.regs[8])
      && r.linear == if r.reload then load else if m <= load then load - m else 0
  {
    if m > 0 {
      LinearClosedForm(s, m - 1);
    }
  }

  // ---- the sequencer ----

  /** The number of half clocks in a list. */
  function HalfCount(clocks: seq<Clock>): nat {
    if clocks == [] then 0 else (if clocks[0].HalfClock? then 1 else 0) + HalfCount(clocks[1..])
  }

  function QuarterCount(clocks: seq<Clock>): nat {
    if clocks == [] then 0 else (if clocks[0].QuarterClock? then 1 else 0) + QuarterCount(clocks[1..])
  }

  lemma {:induction false} ClockedKeepsControl(s: Apu, clocks: seq<Clock>)
    requires Shaped(s)
    ensures var r := Clocked(s, clocks); r.regs == s.regs && r.phase == s.phase && r.writes == s.writes && r.frames == s.frames
    decreases |clocks|
  {
    if clocks != [] {
      ClockedKeepsControl(if clocks[0].HalfClock? then Half(s) else Quarter(s), clocks[1..]);
    }
  }

  lemma {:induction false} ClockedCounts(s: Apu, clocks: seq<Clock>)
    requires Shaped(s)
    ensures var r := Clocked(s, clocks);
      r.halves == s.halves + HalfCount(clocks) && r.quarters == s.quarters + QuarterCount(clocks)
    decreases |clocks|
  {
    if clocks != [] {
      ClockedCounts(if clocks[0].HalfClock? then Half(s) else Quarter(s), clocks[1..]);
    }
  }

  lemma PhaseCounts(five: bool, phase: nat)
    ensures HalfCount(PhaseClocks(five, phase)) == if HalfAt(five, phase) then 1 else 0
    ensures QuarterCount(PhaseClocks(five, phase)) == if QuarterAt(five, phase) then 1 else 0
  {
    var clocks := PhaseClocks(five, phase);
    if HalfAt(five, phase) && QuarterAt(five, phase) {
      assert clocks == [HalfClock, QuarterClock] && clocks[1..] == [QuarterClock];
    } else if QuarterAt(five, phase) {
      assert clocks == [QuarterClock];
    }
  }

  /** Quarter clocks in the first t opportunities after phase 0. */
  function QuartersIn(five: bool, t: nat): nat {
    if five then t - (t + 1) / 5 else t
  }

  function HalvesIn(five: bool, t: nat): nat {
    if five then (t + 3) / 5 + t / 5 else t / 2
  }

  function PhaseAt(five: bool, t: nat): nat {
    if five then t % 5 else t % 4
  }

  lemma Fifths(x: nat, q: nat)
    requires 5 * q <= x < 5 * q + 5
    ensures x / 5 == q && x % 5 == x - 5 * q
  {}

  lemma NextOfFive(t: nat)
    ensures QuartersIn(true, t + 1) == QuartersIn(true, t) + if QuarterAt(true, t % 5) then 1 else 0
    ensures HalvesIn(true, t + 1) == HalvesIn(true, t) + if HalfAt(true, t % 5) then 1 else 0
    ensures (t + 1) % 5 == if t % 5 == 4 then 0 else t % 5 + 1
  {
    var q, r := t / 5, t % 5;
    Fifths(t + 1, if r == 4 then q + 1 else q);
    Fifths(t + 2, if r >= 3 then q + 1 else q);
    Fifths(t + 3, if r >= 2 then q + 1 else q);
    Fifths(t + 4, if r >= 1 then q + 1 else q);
  }

  lemma Fourths(x: nat, q: nat)
    requires 4 * q <= x < 4 * q + 4
    ensures x / 4 == q && x % 4 == x - 4 * q
  {}

  lemma Halved(x: nat, h: nat)
    requires 2 * h <= x < 2 * h + 2
    ensures x / 2 == h
  {}

  lemma NextOfFour(t: nat)
    ensures QuartersIn(false, t + 1) == QuartersIn(false, t) + if QuarterAt(false, t % 4) then 1 else 0
    ensures HalvesIn(false, t + 1) == HalvesIn(false, t) + if HalfAt(false, t % 4) then 1 else 0
    ensures (t + 1) % 4 == if t % 4 == 3 then 0 else t % 4 + 1
  {
    var q, r := t / 4, t % 4;
    assert t == 4 * q + r && r < 4;
    Fourths(t + 1, if r == 3 then q + 1 else q);
    Halved(t, if r >= 2 then 2 * q + 1 else 2 * q);
    Halved(t + 1, if r == 0 then 2 * q else if r == 3 then 2 * q + 2 else 2 * q + 1);
  }

  lemma NextCounts(five: bool, t: nat)
    ensures QuartersIn(five, t + 1) == QuartersIn(five, t) + if QuarterAt(five, PhaseAt(five, t)) then 1 else 0
    ensures HalvesIn(five, t + 1) == HalvesIn(five, t) + if HalfAt(five, PhaseAt(five, t)) then 1 else 0
    ensures PhaseAt(five, t + 1) == (PhaseAt(five, t) + 1) % Steps(five)
    ensures QuartersIn(five, 0) == HalvesIn(five, 0) == PhaseAt(five, 0) == 0
  {
    NoneAtZero(five);
    hide HalfAt, QuarterAt, QuartersIn, HalvesIn;
    if five {
      NextOfFive(t);
    } else {
      NextOfFour(t);
    }
  }

  lemma NoneAtZero(five: bool)
    ensures QuartersIn(five, 0) == HalvesIn(five, 0) == PhaseAt(five, 0) == 0
  {}

  lemma {:induction false} SequencerClosedForm(s: Apu, t: nat)
    requires Shaped(s) && s.phase == 0
    ensures var r := PhaseSteps(s, t); var five := FiveStep(s);
      r.regs == s.regs && r.frames == s.frames && r.writes == s.writes
      && r.phase == PhaseAt(five, t)
      && r.quarters == s.quarters + QuartersIn(five, t)
      && r.halves == s.halves + HalvesIn(five, t)
  {
    hide Clocked, PhaseClocks, QuartersIn, HalvesIn, HalfAt, QuarterAt, Bit7;
    if t > 0 {
      SequencerClosedForm(s, t - 1);
      var u := PhaseSteps(s, t - 1);
      ClockedKeepsControl(u, PhaseClocks(FiveStep(s), u.phase));
      ClockedCounts(u, PhaseClocks(FiveStep(s), u.phase));
      PhaseCounts(FiveStep(s), u.phase);
    }
    NextCounts(FiveStep(s), if t > 0 then t - 1 else 0);
  }

  function Frames(s: Apu, n: nat): (r: Apu)
    requires Shaped(s)
    ensures Shaped(r)
  {
    if n == 0 then s else Frame(Frames(s, n - 1))
  }

  /** The clocks of a frame do not look at the frame counter. */
  lemma {:induction false} ClockedIgnoresFrames(s: Apu, f: nat, clocks: seq<Clock>)
    requires Shaped(s)
    ensures Clocked(s.(frames := f), clocks) == Clocked(s, clocks).(frames := f)
    decreases |clocks|
  {
    if clocks != [] {
      var one := if clocks[0].HalfClock? then Half(s) else Quarter(s);
      assert (if clocks[0].HalfClock? then Half(s.(frames := f)) else Quarter(s.(frames := f))) == one.(frames := f);
      ClockedIgnoresFrames(one, f, clocks[1..]);
    }
  }

  lemma {:induction false} PhaseStepsIgnoreFrames(s: Apu, f: nat, t: nat)
    requires Shaped(s)
    ensures PhaseSteps(s.(frames := f), t) == PhaseSteps(s, t).(frames := f)
  {
    hide Clocked, PhaseClocks, Bit7;
    if t > 0 {
      PhaseStepsIgnoreFrames(s, f, t - 1);
      var u := PhaseSteps(s, t - 1);
      ClockedIgnoresFrames(u, f, PhaseClocks(FiveStep(u), u.phase));
    }
  }

  lemma {:induction false} PhaseStepsCompose(s: Apu, t: nat, u: nat)
    requires Shaped(s)
    ensures PhaseSteps(s, t + u) == PhaseSteps(PhaseSteps(s, t), u)
  {
    hide PhaseStep;
    if u > 0 {
      assert t + u - 1 == t + (u - 1);
      PhaseStepsCompose(s, t, u - 1);
    }
  }

  lemma {:induction false} FramesArePhaseSteps(s: Apu, n: nat)
    requires Shaped(s)
    ensures Frames(s, n) == PhaseSteps(s, 4 * n).(frames := s.frames + n)
  {
    hide PhaseStep, FiveStep;
    if n > 0 {
      FramesArePhaseSteps(s, n - 1);
      var u := PhaseSteps(s, 4 * (n - 1));
      PhaseStepsIgnoreFrames(u, s.frames + (n - 1), 4);
      PhaseStepsCompose(s, 4 * (n - 1), 4);
      assert 4 * (n - 1) + 4 == 4 * n;
    } else {
      assert s.(frames := s.frames + 0) == s;
    }
  }

  /** What n frames from phase 0 clock: 4n quarters and 2n halves in four steps. */
  lemma {:induction false} FramesClosedForm(s: Apu, n: nat)
    requires Shaped(s) && s.phase == 0
    ensures var r := Frames(s, n); var t := 4 * n;
      r.regs == s.regs && r.frames == s.frames + n
      && if FiveStep(s)
         then r.phase == t % 5 && r.quarters == s.quarters + t - (t + 1) / 5
           && r.halves == s.halves + (t + 3) / 5 + t / 5
         else r.phase == 0 && r.quarters == s.quarters + 4 * n && r.halves == s.halves + 2 * n
  {
    hide PhaseSteps, Frames, QuartersIn, HalvesIn, PhaseAt, Bit7;
    FramesArePhaseSteps(s, n);
    SequencerClosedForm(s, 4 * n);
    if FiveStep(s) {
      FiveStepCounts(4 * n);
    } else {
      FourStepCounts(n);
    }
  }

  lemma FiveStepCounts(t: nat)
    ensures PhaseAt(true, t) == t % 5 && QuartersIn(true, t) == t - (t + 1) / 5 && HalvesIn(true, t) == (t + 3) / 5 + t / 5
  {}

  lemma FourStepCounts(n: nat)
    ensures PhaseAt(false, 4 * n) == 0 && QuartersIn(false, 4 * n) == 4 * n && HalvesIn(false, 4 * n) == 2 * n
  {
    Fourths(4 * n, n);
    Halved(4 * n, 2 * n);
  }

  // ---- every run ----

  predicate InPhase(s: Apu)
    requires Shaped(s)
  {
    s.phase < Steps(FiveStep(s))
  }

  lemma {:induction false} PhaseStepsKeepPhase(s: Apu, t: nat)
    requires Shaped(s) && InPhase(s)
    ensures InPhase(PhaseSteps(s, t)) && PhaseSteps(s, t).regs == s.regs
  {
    if t > 0 {
      PhaseStepsKeepPhase(s, t - 1);
      var u := PhaseSteps(s, t - 1);
      ClockedKeepsControl(u, PhaseClocks(FiveStep(u), u.phase));
    }
  }

  lemma {:induction false} HandleKeepsPhase(s: Apu, e: Event)
    requires Shaped(s) && InPhase(s)
    ensures InPhase(Handle(s, e))
  {
    match e
    case FrameEvent => PhaseStepsKeepPhase(s, 4);
    case WriteEvent(address, value) =>
      if Register(address) && 0 <= value <= 0xFF {
        ClockedKeepsControl(Stored(s, address - 0x4000, value), WriteClocks(address - 0x4000, value));
      }
  }

  /** The phase is an opportunity of the selected mode, whatever was written. */
  lemma {:induction false} PhaseBound(s: Apu, events: seq<Event>)
    requires Shaped(s) && InPhase(s)
    ensures InPhase(Run(s, events))
    decreases |events|
  {
    if events != [] {
      PhaseBound(s, events[..|events| - 1]);
      HandleKeepsPhase(Run(s, events[..|events| - 1]), events[|events| - 1]);
    }
  }

  // ---- lengths ----

  function Countdown(length: nat, clocks: nat): nat {
    if length >= clocks then length - clocks else 0
  }

  function Remaining(length: nat, halted: bool, clocks: nat): nat {
    if halted then length else Countdown(length, clocks)
  }

  lemma {:induction false} ClockedLengths(s: Apu, clocks: seq<Clock>, c: nat)
    requires Shaped(s) && c < 4
    ensures var r := Clocked(s, clocks);
      r.halves == s.halves + HalfCount(clocks)
      && r.lengths[c] == Remaining(s.lengths[c], Halted(s.regs[4 * c], c), HalfCount(clocks))
    decreases |clocks|
  {
    if clocks != [] {
      ClockedLengths(if clocks[0].HalfClock? then Half(s) else Quarter(s), clocks[1..], c);
    }
  }

  /** The event leaves the length and the halt flag of voice c to the half clocks. */
  predicate LeavesLength(e: Event, c: nat) {
    e.WriteEvent? ==> e.address != 0x4000 + 4 * c && e.address != 0x4003 + 4 * c && e.address != 0x4015
  }

  /** From s to r, voice c only counted the half clocks. */
  predicate OnlyCounted(s: Apu, r: Apu, c: nat)
    requires Shaped(s) && Shaped(r) && c < 4
  {
    r.halves >= s.halves && r.regs[4 * c] == s.regs[4 * c]
    && r.lengths[c] == Remaining(s.lengths[c], Halted(s.regs[4 * c], c), r.halves - s.halves)
  }

  lemma {:induction false} PhaseStepsOnlyCount(s: Apu, t: nat, c: nat)
    requires Shaped(s) && c < 4
    ensures OnlyCounted(s, PhaseSteps(s, t), c)
  {
    if t > 0 {
      PhaseStepsOnlyCount(s, t - 1, c);
      var u := PhaseSteps(s, t - 1);
      ClockedLengths(u, PhaseClocks(FiveStep(u), u.phase), c);
      ClockedKeepsControl(u, PhaseClocks(FiveStep(u), u.phase));
    }
  }

  lemma {:induction false} HandleOnlyCounts(s: Apu, e: Event, c: nat)
    requires Shaped(s) && c < 4 && LeavesLength(e, c)
    ensures OnlyCounted(s, Handle(s, e), c)
  {
    match e
    case FrameEvent => PhaseStepsOnlyCount(s, 4, c);
    case WriteEvent(address, value) =>
      if Register(address) && 0 <= value <= 0xFF {
        var t, clocks := Stored(s, address - 0x4000, value), WriteClocks(address - 0x4000, value);
        ClockedLengths(t, clocks, c);
        ClockedKeepsControl(t, clocks);
      }
  }

  /** Over any run that leaves voice c alone, its length counts the half clocks down to 0, or stays when halted. */
  lemma {:induction false} LengthCountdown(s: Apu, events: seq<Event>, c: nat)
    requires Shaped(s) && c < 4 && forall i {:trigger events[i]} :: 0 <= i < |events| ==> LeavesLength(events[i], c)
    ensures OnlyCounted(s, Run(s, events), c)
    decreases |events|
  {
    if events != [] {
      var before := events[..|events| - 1];
      LengthCountdown(s, before, c);
      HandleOnlyCounts(Run(s, before), events[|events| - 1], c);
    }
  }

  /** The only event that gives a silent voice a length: a write of its high register while it is enabled. */
  predicate Starts(s: Apu, e: Event, c: nat)
    requires Shaped(s) && c < 4
  {
    e.WriteEvent? && e.address == 0x4003 + 4 * c && 0 <= e.value <= 0xFF && Enabled(s.regs[0x15], c)
  }

  lemma {:induction false} RevivedExactlyByStart(s: Apu, e: Event, c: nat)
    requires Shaped(s) && c < 4 && s.lengths[c] == 0
    ensures Handle(s, e).lengths[c] == if Starts(s, e, c) then LengthOf(e.value / 8) else 0
  {
    match e
    case FrameEvent => PhaseStepsOnlyCount(s, 4, c);
    case WriteEvent(address, value) =>
      if Register(address) && 0 <= value <= 0xFF {
        ClockedLengths(Stored(s, address - 0x4000, value), WriteClocks(address - 0x4000, value), c);
      }
  }

  lemma {:induction false} SilentVoiceStaysSilent(s: Apu, events: seq<Event>, c: nat)
    requires Shaped(s) && c < 4 && s.lengths[c] == 0
    requires forall i {:trigger events[i]} :: 0 <= i < |events| ==> !Starts(Run(s, events[..i]), events[i], c)
    ensures Run(s, events).lengths[c] == 0 && Volume(Run(s, events), c) == Some(0)
    decreases |events|
  {
    if events != [] {
      var n := |events| - 1;
      var before := events[..n];
      assert forall i {:trigger before[i]} :: 0 <= i < n ==> before[..i] == events[..i] && before[i] == events[i];
      SilentVoiceStaysSilent(s, before, c);
      RevivedExactlyByStart(Run(s, before), events[n], c);
    }
  }
}
