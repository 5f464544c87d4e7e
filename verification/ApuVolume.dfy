/** What the voices sound like over time (tools/apu_model.py:23-66, tools/apu_sweep_model.py:15-54): volumes from the closed
  * forms of the counters, after any run that leaves a voice alone. */
module ApuVolume {
  import opened Bytes
  import opened StatusRegister
  import opened A = ApuModel
  import opened ApuClocks
  import S = ApuSweep

  // ---- the registers, bit by bit ----

  /** The weight of voice c in $4015. */
  function VoiceWeight(c: nat): nat
    requires c < 4
    ensures VoiceWeight(c) > 0
  {
    if c == 0 then 1 else 2 * VoiceWeight(c - 1)
  }

  /** Which bits the register tests look at. */
  lemma FlagsAreBits(value: byte, c: nat)
    requires c < 4
    ensures Bit5(value) <==> Bit(value, 0x20)
    ensures Bit7(value) <==> Bit(value, 0x80)
    ensures Enabled(value, c) <==> Bit(value, VoiceWeight(c))
    ensures Halted(value, c) <==> Bit(value, if c == 2 then 0x80 else 0x20)
  {
    assert VoiceWeight(1) == 2 && VoiceWeight(2) == 4 && VoiceWeight(3) == 8;
    assert value / 0x80 < 2;
  }

  /** The length table: odd entries count up in twos, after the longest length; even ones are two scales of notes, each
    * doubling four times, then three more. */
  lemma LengthTableShape(index: nat)
    requires index < 32
    ensures index % 2 == 1 ==> LengthOf(index) == if index == 1 then 254 else index - 1
    ensures index == 0 ==> LengthOf(index) == 10
    ensures index == 16 ==> LengthOf(index) == 12
    ensures index % 2 == 0 && 1 <= index % 16 / 2 <= 4 ==> LengthOf(index) == 2 * LengthOf(index - 2)
    ensures index == 10 ==> LengthOf(index) == 60 && LengthOf(index + 16) == 72
    ensures index == 12 ==> LengthOf(index) == 14 && LengthOf(index + 16) == 16
    ensures index == 14 ==> LengthOf(index) == 26 && LengthOf(index + 16) == 32
  {}

  /** Which writes are accepted, and the clocks they cause. */
  lemma WriteExactly(s: Apu, address: int, value: int)
    requires Shaped(s)
    ensures A.Write(s, address, value).Some?
      <==> 0x4000 <= address <= 0x4017 && address != 0x4014 && address != 0x4016 && 0 <= value <= 0xFF
    ensures A.Write(s, address, value).Some? ==>
      (var r := A.Write(s, address, value).value; var five := address == 0x4017 && value >= 0x80;
       && r.regs == s.regs[address - 0x4000 := value] && r.writes == s.writes + 1 && r.frames == s.frames
       && r.phase == (if address == 0x4017 then 0 else s.phase)
       && r.halves == s.halves + (if five then 1 else 0) && r.quarters == s.quarters + (if five then 1 else 0))
  {
    if Register(address) && 0 <= value <= 0xFF {
      var index := address - 0x4000;
      hide Enabled, LengthOf, Bit7;
      var t := Stored(s, index, value);
      ClockedKeepsControl(t, WriteClocks(index, value));
      ClockedCounts(t, WriteClocks(index, value));
      ClocksOfWrite(index, value);
      hide Clocked, WriteClocks;
    }
  }

  lemma ClocksOfWrite(index: nat, value: byte)
    ensures var n := if index == 0x17 && value >= 0x80 then 1 else 0;
      HalfCount(WriteClocks(index, value)) == n && QuarterCount(WriteClocks(index, value)) == n
      && (index != 0x17 ==> WriteClocks(index, value) == [])
  {
    if index == 0x17 {
      WriteCounts(value);
    }
  }

  /** The voices a write enables, restarts and gives a length. */
  lemma WriteVoices(s: Apu, address: int, value: int, c: nat)
    requires Shaped(s) && c < 4 && A.Write(s, address, value).Some?
    ensures var r := A.Write(s, address, value).value;
      && (address == 0x4015 ==> r.lengths[c] == if Bit(value, VoiceWeight(c)) then s.lengths[c] else 0)
      && (address == 0x4003 + 4 * c ==>
            && r.lengths[c] == (if Bit(s.regs[0x15], VoiceWeight(c)) then LengthOf(value / 8) else s.lengths[c])
            && (if c == 2 then r.reload else r.envelopes[c] == s.envelopes[c].(restart := true)))
  {
    var index := address - 0x4000;
    FlagsAreBits(value, c);
    FlagsAreBits(s.regs[0x15], c);
    hide Bit, Enabled, VoiceWeight, LengthOf, Bit5, Bit7, Halted;
    if index != 0x17 {
      NoClocks(Stored(s, index, value), index, value);
    }
    hide Clocked, WriteClocks;
  }

  lemma NoClocks(s: Apu, index: nat, value: byte)
    requires Shaped(s) && index != 0x17
    ensures WriteClocks(index, value) == [] && Clocked(s, WriteClocks(index, value)) == s
    ensures HalfCount(WriteClocks(index, value)) == QuarterCount(WriteClocks(index, value)) == 0
  {}

  lemma WriteCounts(value: byte)
    ensures HalfCount(WriteClocks(0x17, value)) == (if value >= 0x80 then 1 else 0)
    ensures QuarterCount(WriteClocks(0x17, value)) == (if value >= 0x80 then 1 else 0)
  {
    if value >= 0x80 {
      assert WriteClocks(0x17, value) == [HalfClock, QuarterClock] && [HalfClock, QuarterClock][1..] == [QuarterClock];
    }
  }

  // ---- a voice over a run ----

  /** The linear counter and its reload flag after n quarter clocks. */
  function Linear(linear: nat, reload: bool, control: byte, n: nat): (nat, bool) {
    if n == 0 then (linear, reload)
    else
      var (l, r) := Linear(linear, reload, control, n - 1);
      (if r then control % 0x80 else if l > 0 then l - 1 else 0, r && control >= 0x80)
  }

  /** It is loaded at the first clock after a reload, again at each clock while the control bit is set, and counts down. */
  lemma {:induction false} LinearExactly(linear: nat, reload: bool, control: byte, n: nat)
    ensures Linear(linear, reload, control, n).1 == (reload && (n == 0 || control >= 0x80))
    ensures Linear(linear, reload, control, n).0
      == if !reload || n == 0 then (if linear >= n then linear - n else 0)
         else if control >= 0x80 then control - 0x80
         else if control + 1 >= n then control + 1 - n else 0
  {
    if n > 0 {
      LinearExactly(linear, reload, control, n - 1);
    }
  }

  /** From s to r, the registers of voice c stayed and its envelope or linear counter only saw the quarter clocks. */
  ghost predicate OnlyQuartered(s: Apu, r: Apu, c: nat)
    requires Shaped(s) && Shaped(r) && c < 4
  {
    && r.quarters >= s.quarters && r.regs[4 * c] == s.regs[4 * c] && r.regs[0x15] == s.regs[0x15]
    && if c == 2 then (r.linear, r.reload) == Linear(s.linear, s.reload, s.regs[8], r.quarters - s.quarters)
       else r.envelopes[c] == Decayed(s.envelopes[c], s.regs[4 * c], r.quarters - s.quarters)
  }

  lemma {:induction false} DecayedCompose(e: Envelope, control: byte, m: nat, n: nat)
    ensures Decayed(Decayed(e, control, m), control, n) == Decayed(e, control, m + n)
  {
    if n > 0 {
      DecayedCompose(e, control, m, n - 1);
      assert m + n - 1 == m + (n - 1);
    }
  }

  lemma {:induction false} LinearCompose(linear: nat, reload: bool, control: byte, m: nat, n: nat)
    ensures var (l, r) := Linear(linear, reload, control, m);
      Linear(l, r, control, n) == Linear(linear, reload, control, m + n)
  {
    if n > 0 {
      LinearCompose(linear, reload, control, m, n - 1);
      assert m + n - 1 == m + (n - 1);
    }
  }

  lemma QuarteredTransitive(s: Apu, t: Apu, r: Apu, c: nat)
    requires Shaped(s) && Shaped(t) && Shaped(r) && c < 4 && OnlyQuartered(s, t, c) && OnlyQuartered(t, r, c)
    ensures OnlyQuartered(s, r, c)
  {
    DecayedCompose(s.envelopes[c], s.regs[4 * c], t.quarters - s.quarters, r.quarters - t.quarters);
    LinearCompose(s.linear, s.reload, s.regs[8], t.quarters - s.quarters, r.quarters - t.quarters);
  }

  lemma ClockOnlyQuarters(s: Apu, half: bool, c: nat)
    requires Shaped(s) && c < 4
    ensures OnlyQuartered(s, if half then Half(s) else Quarter(s), c)
  {
    hide ClockEnvelope;
    var control := s.regs[4 * c];
    assert Decayed(s.envelopes[c], control, 0) == s.envelopes[c];
    assert Decayed(s.envelopes[c], control, 1) == ClockEnvelope(s.envelopes[c], control);
    assert Linear(s.linear, s.reload, s.regs[8], 0) == (s.linear, s.reload);
    assert Linear(s.linear, s.reload, s.regs[8], 1)
      == (if s.reload then s.regs[8] % 0x80 else if s.linear > 0 then s.linear - 1 else 0, s.reload && s.regs[8] >= 0x80);
  }

  lemma {:induction false} ClockedOnlyQuarters(s: Apu, clocks: seq<Clock>, c: nat)
    requires Shaped(s) && c < 4
    ensures OnlyQuartered(s, Clocked(s, clocks), c)
    decreases |clocks|
  {
    hide OnlyQuartered, Half, Quarter;
    if clocks == [] {
      QuarteredItself(s, c);
    } else {
      var one := if clocks[0].HalfClock? then Half(s) else Quarter(s);
      ClockOnlyQuarters(s, clocks[0].HalfClock?, c);
      ClockedOnlyQuarters(one, clocks[1..], c);
      QuarteredTransitive(s, one, Clocked(s, clocks), c);
    }
  }

  lemma QuarteredItself(s: Apu, c: nat)
    requires Shaped(s) && c < 4
    ensures OnlyQuartered(s, s, c)
  {}

  /** The phase does not matter to a voice. */
  lemma QuarteredFrames(s: Apu, t: Apu, r: Apu, c: nat)
    requires Shaped(s) && Shaped(t) && Shaped(r) && c < 4 && OnlyQuartered(s, t, c)
    requires r == t.(phase := r.phase, frames := r.frames)
    ensures OnlyQuartered(s, r, c)
  {}

  lemma {:induction false} PhaseStepsOnlyQuarter(s: Apu, t: nat, c: nat)
    requires Shaped(s) && c < 4
    ensures OnlyQuartered(s, PhaseSteps(s, t), c)
  {
    hide OnlyQuartered, Clocked, PhaseClocks;
    if t == 0 {
      QuarteredItself(s, c);
    } else {
      PhaseStepsOnlyQuarter(s, t - 1, c);
      var u := PhaseSteps(s, t - 1);
      var clocks := PhaseClocks(FiveStep(u), u.phase);
      ClockedOnlyQuarters(u, clocks, c);
      QuarteredFrames(u, Clocked(u, clocks), PhaseStep(u), c);
      QuarteredTransitive(s, u, PhaseStep(u), c);
    }
  }

  lemma {:induction false} HandleOnlyQuarters(s: Apu, e: Event, c: nat)
    requires Shaped(s) && c < 4 && LeavesLength(e, c)
    ensures OnlyQuartered(s, Handle(s, e), c)
  {
    match e
    case FrameEvent =>
      PhaseStepsOnlyQuarter(s, 4, c);
      QuarteredFrames(s, PhaseSteps(s, 4), Handle(s, e), c);
    case WriteEvent(address, value) =>
      QuarteredItself(s, c);
      if Register(address) && 0 <= value <= 0xFF {
        var t, clocks := Stored(s, address - 0x4000, value), WriteClocks(address - 0x4000, value);
        StoredOnlyQuarters(s, address - 0x4000, value, c);
        ClockedOnlyQuarters(t, clocks, c);
        QuarteredTransitive(s, t, Clocked(t, clocks), c);
      }
  }

  lemma StoredOnlyQuarters(s: Apu, index: nat, value: byte, c: nat)
    requires Shaped(s) && c < 4 && index < 24 && index != 4 * c && index != 4 * c + 3 && index != 0x15
    ensures OnlyQuartered(s, Stored(s, index, value), c)
  {
    hide LengthOf, Enabled;
    QuarteredItself(s, c);
    hide Decayed, Linear;
    var t := Stored(s, index, value);
    assert t.quarters == s.quarters && t.linear == s.linear && t.envelopes[c] == s.envelopes[c];
    assert c == 2 ==> t.reload == s.reload;
  }

  lemma {:induction false} RunOnlyQuarters(s: Apu, events: seq<Event>, c: nat)
    requires Shaped(s) && c < 4 && forall i {:trigger events[i]} :: 0 <= i < |events| ==> LeavesLength(events[i], c)
    ensures OnlyQuartered(s, Run(s, events), c)
    decreases |events|
  {
    hide OnlyQuartered, Handle, LeavesLength;
    if events == [] {
      QuarteredItself(s, c);
    } else {
      var before := events[..|events| - 1];
      RunOnlyQuarters(s, before, c);
      HandleOnlyQuarters(Run(s, before), events[|events| - 1], c);
      QuarteredTransitive(s, Run(s, before), Run(s, events), c);
    }
  }

  // ---- volumes ----

  /** The volume of a sounding voice c with this control byte, after m + 1 quarter clocks from a restart or reload. */
  function Sound(c: nat, control: byte, m: nat): nat
    requires c < 4
  {
    if c == 2 then if control > 0x80 || (control < 0x80 && control > m) then 66 else 0
    else
      var period := control as nat % 16 + 1;
      var steps := m / period;
      (if c == 3 then 4 else 6)
        * (if Bit(control, 0x10) then control as nat % 16
           else if Bit(control, 0x20) then 15 - steps % 16
           else if steps <= 15 then 15 - steps else 0)
  }

  /** The length left after n half clocks. */
  function Left(length: nat, control: byte, c: nat, n: nat): nat
    requires c < 4
  {
    if Bit(control, if c == 2 then 0x80 else 0x20) then length else if length >= n then length - n else 0
  }

  /** What a voice restarted in s is heard at after so many half clocks and m + 1 quarter clocks: nothing when it is
    * disabled or its length has run out. */
  function Heard(s: Apu, c: nat, halves: nat, m: nat): nat
    requires Shaped(s) && c < 4
  {
    var control := s.regs[4 * c];
    if Left(s.lengths[c], control, c, halves) > 0 && Bit(s.regs[0x15], VoiceWeight(c)) then Sound(c, control, m) else 0
  }

  predicate Begins(s: Apu, c: nat)
    requires Shaped(s) && c < 4
  {
    if c == 2 then s.reload else s.envelopes[c].restart
  }

  lemma TriangleSounds(r: Apu, control: byte, m: nat)
    requires Shaped(r) && r.lengths[2] > 0 && Enabled(r.regs[0x15], 2)
    requires r.linear == if control >= 0x80 then control - 0x80 else if control >= m then control - m else 0
    ensures Volume(r, 2) == Some(Sound(2, control, m))
  {}

  lemma PulseSounds(r: Apu, c: nat, m: nat)
    requires Shaped(r) && HasEnvelope(c) && r.lengths[c] > 0 && Enabled(r.regs[0x15], c)
    requires r.envelopes[c].decay == Level(r.regs[4 * c], m / (r.regs[4 * c] as nat % 16 + 1))
    ensures Volume(r, c) == Some(Sound(c, r.regs[4 * c], m))
  {
    FlagsAreBits(r.regs[4 * c], c);
    hide Enabled;
  }

  lemma RestartedVoice(s: Apu, r: Apu, c: nat, m: nat)
    requires Shaped(s) && Shaped(r) && c < 4 && Begins(s, c) && OnlyQuartered(s, r, c) && r.quarters == s.quarters + m + 1
    requires r.lengths[c] > 0 && Enabled(r.regs[0x15], c)
    ensures Volume(r, c) == Some(Sound(c, s.regs[4 * c], m))
  {
    hide Volume, Sound, Enabled;
    var control := s.regs[4 * c];
    if c == 2 {
      LinearExactly(s.linear, s.reload, control, m + 1);
      TriangleSounds(r, control, m);
    } else {
      DecayedLater(s.envelopes[c], control, m);
      EnvelopeClosedForm(control, m);
      hide Decayed, Level;
      PulseSounds(r, c, m);
    }
  }

  lemma Silent(r: Apu, c: nat)
    requires Shaped(r) && c < 4
    ensures r.lengths[c] == 0 || !Enabled(r.regs[0x15], c) ==> Volume(r, c) == Some(0)
  {}

  lemma HeardAfter(s: Apu, r: Apu, c: nat)
    requires Shaped(s) && Shaped(r) && c < 4 && Begins(s, c) && OnlyQuartered(s, r, c) && OnlyCounted(s, r, c)
    requires r.quarters > s.quarters
    ensures Volume(r, c) == Some(Heard(s, c, r.halves - s.halves, r.quarters - s.quarters - 1))
  {
    FlagsAreBits(s.regs[4 * c], c);
    FlagsAreBits(s.regs[0x15], c);
    hide Bit, Volume, Sound, Enabled, Halted, Bit5, Bit7;
    Silent(r, c);
    if r.lengths[c] > 0 && Enabled(r.regs[0x15], c) {
      RestartedVoice(s, r, c, r.quarters - s.quarters - 1);
    }
  }

  lemma ClocksGrow(s: Apu, r: Apu, c: nat)
    requires Shaped(s) && Shaped(r) && c < 4 && OnlyQuartered(s, r, c) && OnlyCounted(s, r, c)
    ensures r.quarters >= s.quarters && r.halves >= s.halves
  {}

  /** Over any run that leaves a restarted voice alone, its volume depends on the clocks alone. */
  lemma VoiceSounds(s: Apu, events: seq<Event>, c: nat)
    requires Shaped(s) && c < 4 && Begins(s, c)
    requires forall i {:trigger events[i]} :: 0 <= i < |events| ==> LeavesLength(events[i], c)
    ensures var r := Run(s, events);
      && r.quarters >= s.quarters && r.halves >= s.halves
      && (r.quarters > s.quarters ==>
            Volume(r, c) == Some(Heard(s, c, r.halves - s.halves, r.quarters - s.quarters - 1)))
  {
    hide Run, Heard, Volume, Begins, OnlyQuartered, OnlyCounted;
    RunOnlyQuarters(s, events, c);
    LengthCountdown(s, events, c);
    hide LeavesLength;
    ClocksGrow(s, Run(s, events), c);
    if Run(s, events).quarters > s.quarters {
      HeardAfter(s, Run(s, events), c);
    }
  }

  /** The same for the layered counters, whose pulses are silent while their sweep mutes them. */
  lemma SweptVoiceSounds(s: S.Sweep, events: seq<Event>, c: nat)
    requires S.Shaped(s) && c < 4 && Begins(s.base, c)
    requires forall i {:trigger events[i]} :: 0 <= i < |events| ==> LeavesLength(events[i], c)
    ensures var r := S.Run(s, events); var base := s.base;
      && r.base.quarters >= base.quarters && r.base.halves >= base.halves
      && (r.base.quarters > base.quarters ==>
            S.Volume(r, c) == Some(
              if c < 2 && Mutes(r.pulses[c].period, r.base.regs[4 * c + 1]) then 0
              else Heard(base, c, r.base.halves - base.halves, r.base.quarters - base.quarters - 1)))
  {
    hide S.Run, Run, Volume, S.Volume, S.Muted, S.Silenced, Heard, Mutes, LeavesLength, Begins;
    S.SweepSimulatesBase(s, events, c);
    VoiceSounds(s.base, events, c);
    SilencedExactly(S.Run(s, events), c);
  }

  lemma SilencedExactly(r: S.Sweep, c: nat)
    requires S.Shaped(r) && c < 4
    ensures S.Silenced(r, c) <==> c < 2 && Mutes(r.pulses[c].period, r.base.regs[4 * c + 1])
  {
    if c < 2 {
      MutesExactly(r.pulses[c].period, r.base.regs[4 * c + 1], c);
    }
    hide S.Muted, Mutes;
  }

  // ---- the sweep unit, by its registers ----

  lemma PowersDouble(shift: nat)
    requires shift < 7
    ensures S.Power(0) == 1 && S.Power(shift + 1) == 2 * S.Power(shift)
  {}

  /** The target of a sweep: the shifted period added, or subtracted inside eleven bits, once more in channel 0. */
  lemma TargetExactly(period: nat, control: byte, c: nat)
    requires period <= 0x7FF
    ensures var change := period / S.Power(control % 8); var lowered := period - change - (if c == 0 then 1 else 0);
      S.Target(period, control, c)
      == if !Bit(control, 0x08) then period + change else if lowered >= 0 then lowered else lowered + 0x800
  {
    ChangeIsPart(period, S.Power(control % 8));
  }

  lemma ChangeIsPart(period: nat, power: nat)
    requires power == 1 || power == 2 || power == 4 || power == 8 || power == 16 || power == 32 || power == 64 || power == 128
    ensures 0 <= period / power <= period
  {}

  /** One half clock of a sweep unit: the period moves when the divider is out, the unit is on and not muted, and the shift
    * is not zero; the divider starts again when it is out or reloaded. */
  lemma PulseClockExactly(p: S.Pulse, control: byte, c: nat)
    requires p.period <= 0x7FF
    ensures var q := S.ClockPulse(p, control, c); var change := p.period / S.Power(control % 8);
      && q.period
         == (if p.divider > 0 || control < 0x80 || control % 8 == 0 || Mutes(p.period, control) then p.period
             else if Bit(control, 0x08) then p.period - change - (if c == 0 then 1 else 0)
             else p.period + change)
      && (if p.divider == 0 || p.reload then q.divider == control / 0x10 % 8 && !q.reload
          else q.divider == p.divider - 1 && !q.reload)
  {
    MutesExactly(p.period, control, c);
    if S.Updates(p, control, c) {
      NegativeBit(control);
      if S.Negates(control) {
        S.HalfAtMost(p.period, S.Power(S.Shift(control)));
        TargetExactly(p.period, control, c);
      }
    }
    hide S.Power, S.Muted, Mutes;
  }

  lemma NegativeBit(control: byte)
    ensures S.Negates(control) <==> Bit(control, 0x08)
  {}

  /** What a write does to the sweep unit of its pulse: $4001 and $4005 reload, the next two set the period's low byte and
    * its three high bits. */
  lemma SweepWriteExactly(p: S.Pulse, register: nat, value: byte)
    requires register < 4 && p.period <= 0x7FF
    ensures var q := S.StoredPulse(p, register, value);
      && q.divider == p.divider && q.reload == (p.reload || register == 1)
      && q.period % 0x100 == (if register == 2 then value else p.period % 0x100)
      && q.period / 0x100 == (if register == 3 then value % 8 else p.period / 0x100)
  {}

  /** Both models start with everything at zero. */
  lemma StartsAtZero()
    ensures |Initial().regs| == 24 && forall i {:trigger Initial().regs[i]} :: 0 <= i < 24 ==> Initial().regs[i] == 0
    ensures forall c {:trigger Initial().lengths[c]} :: 0 <= c < 4 ==> Initial().lengths[c] == 0
    ensures forall c {:trigger Initial().envelopes[c]} :: 0 <= c < 4 ==> Initial().envelopes[c] == Envelope(false, 0, 0)
    ensures var s := Initial(); s.linear == s.phase == s.quarters == s.halves == s.frames == s.writes == 0 && !s.reload
    ensures S.Initial().base == Initial() && S.Initial().pulses == [S.Pulse(0, 0, false), S.Pulse(0, 0, false)]
  {}

  /** A period too low, or one that a rising sweep would take past eleven bits. */
  predicate Mutes(period: nat, control: byte) {
    period < 8 || (!Bit(control, 0x08) && period + period / S.Power(control % 8) > 0x7FF)
  }

  lemma MutesExactly(period: nat, control: byte, c: nat)
    ensures S.Muted(period, control, c) <==> Mutes(period, control)
  {}
}
