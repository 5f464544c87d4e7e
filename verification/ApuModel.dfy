/** The frame-quantized audio counters (tools/apu_model.py). */
module ApuModel {
  import opened Bytes

  /** Envelope of one voice: a pending restart, the volume, and its divider. */
  datatype Envelope = Envelope(restart: bool, decay: nat, divider: nat)

  /** Voices 0 and 1 are the pulses, 2 the triangle, 3 the noise. */
  datatype Apu = Apu(regs: seq<byte>, lengths: seq<nat>, envelopes: seq<Envelope>, linear: nat, reload: bool,
                     phase: nat, quarters: nat, halves: nat, frames: nat, writes: nat)

  predicate Shaped(s: Apu) {
    |s.regs| == 24 && |s.lengths| == 4 && |s.envelopes| == 4
  }

  function Initial(): (s: Apu)
    ensures Shaped(s)
  {
    Apu(seq(24, i => 0), seq(4, i => 0), seq(4, i => Envelope(false, 0, 0)), 0, false, 0, 0, 0, 0, 0)
  }

  /** Bit c of a register, for the four voices. */
  predicate Enabled(value: byte, c: nat) {
    (if c == 0 then value % 2 else if c == 1 then value / 2 % 2 else if c == 2 then value / 4 % 2 else value / 8 % 2) == 1
  }

  predicate Bit5(value: byte) {
    value / 32 % 2 == 1
  }

  predicate Bit7(value: byte) {
    value >= 0x80
  }

  /** The length table, by the upper five bits of the written value. */
  function LengthOf(index: nat): nat {
    match index
    case 0 => 10 case 1 => 254 case 2 => 20 case 3 => 2 case 4 => 40 case 5 => 4 case 6 => 80 case 7 => 6
    case 8 => 160 case 9 => 8 case 10 => 60 case 11 => 10 case 12 => 14 case 13 => 12 case 14 => 26 case 15 => 14
    case 16 => 12 case 17 => 16 case 18 => 24 case 19 => 18 case 20 => 48 case 21 => 20 case 22 => 96 case 23 => 22
    case 24 => 192 case 25 => 24 case 26 => 72 case 27 => 26 case 28 => 16 case 29 => 28 case 30 => 32
    case _ => 30
  }

  // ---- the two clocks ----

  function ClockEnvelope(e: Envelope, control: byte): Envelope {
    var period := control % 16;
    if e.restart then Envelope(false, 15, period)
    else if e.divider > 0 then e.(divider := e.divider - 1)
    else Envelope(false, if e.decay > 0 then e.decay - 1 else if Bit5(control) then 15 else 0, period)
  }

  /** The envelope and linear clock. */
  function Quarter(s: Apu): (r: Apu)
    requires Shaped(s)
    ensures Shaped(r)
  {
    s.(quarters := s.quarters + 1,
       envelopes := [ClockEnvelope(s.envelopes[0], s.regs[0]), ClockEnvelope(s.envelopes[1], s.regs[4]), s.envelopes[2],
                     ClockEnvelope(s.envelopes[3], s.regs[12])],
       linear := if s.reload then s.regs[8] % 128 else if s.linear > 0 then s.linear - 1 else 0,
       reload := s.reload && Bit7(s.regs[8]))
  }

  /** The triangle keeps its halt flag in bit 7, the others in bit 5. */
  predicate Halted(control: byte, c: nat) {
    if c == 2 then Bit7(control) else Bit5(control)
  }

  function ClockLength(length: nat, halted: bool): nat {
    if length > 0 && !halted then length - 1 else length
  }

  /** The length clock. */
  function Half(s: Apu): (r: Apu)
    requires Shaped(s)
    ensures Shaped(r)
  {
    s.(halves := s.halves + 1, lengths := seq(4, c requires 0 <= c < 4 => ClockLength(s.lengths[c], Halted(s.regs[4 * c], c))))
  }

  lemma HalfKeepsRegisters(s: Apu)
    requires Shaped(s)
    ensures Half(s).regs == s.regs
  {}

  datatype Clock = QuarterClock | HalfClock

  function Clocked(s: Apu, clocks: seq<Clock>): (r: Apu)
    requires Shaped(s)
    ensures Shaped(r)
    decreases |clocks|
  {
    if clocks == [] then s
    else Clocked(if clocks[0].HalfClock? then Half(s) else Quarter(s), clocks[1..])
  }

  // ---- register writes ----

  predicate Register(address: int) {
    0x4000 <= address <= 0x4017 && address != 0x4014 && address != 0x4016
  }

  predicate HighRegister(index: nat) {
    index < 16 && index % 4 == 3
  }

  /** The write without the clocks it may cause. */
  function Stored(s: Apu, index: nat, value: byte): (r: Apu)
    requires Shaped(s) && index < 24
    ensures Shaped(r)
  {
    var t := s.(regs := s.regs[index := value], writes := s.writes + 1);
    if index == 0x15 then t.(lengths := seq(4, c requires 0 <= c < 4 => if Enabled(value, c) then s.lengths[c] else 0))
    else if index == 0x17 then t.(phase := 0)
    else if HighRegister(index) then
      var c := index / 4;
      var u := if c == 2 then t.(reload := true) else t.(envelopes := s.envelopes[c := s.envelopes[c].(restart := true)]);
      if Enabled(t.regs[0x15], c) then u.(lengths := s.lengths[c := LengthOf(value / 8)]) else u
    else t
  }

  /** A five-step selection clocks both counters at once. */
  function WriteClocks(index: nat, value: byte): seq<Clock> {
    if index == 0x17 && Bit7(value) then [HalfClock, QuarterClock] else []
  }

  function Write(s: Apu, address: int, value: int): (r: Option<Apu>)
    requires Shaped(s)
    ensures r.Some? ==> Shaped(r.value)
  {
    if !Register(address) || !(0 <= value <= 0xFF) then None
    else Some(Clocked(Stored(s, address - 0x4000, value), WriteClocks(address - 0x4000, value)))
  }

  // ---- the frame sequencer ----

  predicate FiveStep(s: Apu)
    requires Shaped(s)
  {
    Bit7(s.regs[23])
  }

  /** The opportunities that clock the lengths, and those that clock the envelopes. */
  predicate HalfAt(five: bool, phase: nat) {
    phase == 1 || phase == (if five then 4 else 3)
  }

  predicate QuarterAt(five: bool, phase: nat) {
    !(five && phase == 3)
  }

  function PhaseClocks(five: bool, phase: nat): seq<Clock> {
    (if HalfAt(five, phase) then [HalfClock] else []) + (if QuarterAt(five, phase) then [QuarterClock] else [])
  }

  function Steps(five: bool): nat {
    if five then 5 else 4
  }

  /** One of the four sequencer opportunities of a frame. */
  function PhaseStep(s: Apu): (r: Apu)
    requires Shaped(s)
    ensures Shaped(r)
  {
    Clocked(s, PhaseClocks(FiveStep(s), s.phase)).(phase := (s.phase + 1) % Steps(FiveStep(s)))
  }

  lemma HalfThenQuarter(s: Apu)
    requires Shaped(s)
    ensures Clocked(s, [HalfClock, QuarterClock]) == Quarter(Half(s))
    ensures Clocked(s, [HalfClock]) == Half(s) && Clocked(s, [QuarterClock]) == Quarter(s) && Clocked(s, []) == s
  {
    assert [HalfClock, QuarterClock][1..] == [QuarterClock];
    assert Clocked(Half(s), []) == Half(s);
    assert Clocked(Quarter(s), []) == Quarter(s) && Clocked(Quarter(Half(s)), []) == Quarter(Half(s));
    assert Clocked(Half(s), [QuarterClock]) == Quarter(Half(s));
  }

  function Due(half: bool, quarter: bool): seq<Clock> {
    if half && quarter then [HalfClock, QuarterClock] else if half then [HalfClock] else if quarter then [QuarterClock] else []
  }

  lemma PhaseClocksAreDue(five: bool, phase: nat)
    ensures PhaseClocks(five, phase) == Due(HalfAt(five, phase), QuarterAt(five, phase))
  {}

  /** A phase clocks the lengths before the envelopes. */
  lemma ClocksOfPhase(s: Apu)
    requires Shaped(s)
    ensures var half, quarter := HalfAt(FiveStep(s), s.phase), QuarterAt(FiveStep(s), s.phase);
      Clocked(s, PhaseClocks(FiveStep(s), s.phase))
        == var t := if half then Half(s) else s; if quarter then Quarter(t) else t
  {
    hide Quarter, Half, Clocked, PhaseClocks;
    HalfThenQuarter(s);
    PhaseClocksAreDue(FiveStep(s), s.phase);
  }

  function PhaseSteps(s: Apu, t: nat): (r: Apu)
    requires Shaped(s)
    ensures Shaped(r)
  {
    if t == 0 then s else PhaseStep(PhaseSteps(s, t - 1))
  }

  function Frame(s: Apu): (r: Apu)
    requires Shaped(s)
    ensures Shaped(r)
  {
    var t := PhaseSteps(s, 4); t.(frames := t.frames + 1)
  }

  /** None for a voice that does not exist. */
  function Volume(s: Apu, c: int): Option<nat>
    requires Shaped(s)
  {
    if !(0 <= c < 4) then None
    else if s.lengths[c] == 0 || !Enabled(s.regs[21], c) then Some(0)
    else if c == 2 then Some(if s.linear > 0 then 66 else 0)
    else
      var control := s.regs[4 * c];
      var raw := if control / 16 % 2 == 1 then control as nat % 16 else s.envelopes[c].decay;
      Some(raw * (if c == 3 then 4 else 6))
  }

  // ---- runs ----

  datatype Event = WriteEvent(address: int, value: int) | FrameEvent

  /** A refused write raises an error and changes nothing. */
  function Handle(s: Apu, e: Event): (r: Apu)
    requires Shaped(s)
    ensures Shaped(r)
  {
    match e
    case FrameEvent => Frame(s)
    case WriteEvent(address, value) => var w := Write(s, address, value); if w.Some? then w.value else s
  }

  function Run(s: Apu, events: seq<Event>): (r: Apu)
    requires Shaped(s)
    ensures Shaped(r)
    decreases |events|
  {
    if events == [] then s else Handle(Run(s, events[..|events| - 1]), events[|events| - 1])
  }
}
