/** The audio counters as the object whose fields every write and clock updates (tools/apu_model.py:10-66). */
module ApuCounters {
  import opened Bytes
  import A = ApuModel

  class Counters {
    var regs: seq<byte>
    var lengths: seq<nat>
    var envelopes: seq<A.Envelope>
    var linear: nat
    var reload: bool
    var phase: nat
    var quarters: nat
    var halves: nat
    var frames: nat
    var writes: nat

    ghost predicate Valid()
      reads this
    {
      |regs| == 24 && |lengths| == 4 && |envelopes| == 4
    }

    ghost function State(): A.Apu
      reads this
    {
      A.Apu(regs, lengths, envelopes, linear, reload, phase, quarters, halves, frames, writes)
    }

    constructor ()
      ensures Valid() && State() == A.Initial()
    {
      regs := A.Initial().regs;
      lengths := A.Initial().lengths;
      envelopes := A.Initial().envelopes;
      linear, reload, phase := 0, false, 0;
      quarters, halves, frames, writes := 0, 0, 0, 0;
    }

    method Quarter()
      requires Valid()
      modifies this
      ensures Valid() && State() == A.Quarter(old(State()))
    {
      quarters := quarters + 1;
      ghost var was := envelopes;
      for c := 0 to 4
        invariant |envelopes| == 4
        invariant unchanged(this`regs, this`lengths, this`linear, this`reload, this`phase, this`halves, this`frames, this`writes)
        invariant quarters == old(quarters) + 1
        invariant forall k {:trigger envelopes[k]} :: 0 <= k < 4 ==>
          envelopes[k] == if k < c && k != 2 then A.ClockEnvelope(was[k], regs[4 * k]) else was[k]
      {
        if c != 2 {
          envelopes := envelopes[c := A.ClockEnvelope(envelopes[c], regs[4 * c])];
        }
      }
      linear := if reload then regs[8] % 128 else if linear > 0 then linear - 1 else 0;
      if !A.Bit7(regs[8]) {
        reload := false;
      }
      assert envelopes == A.Quarter(old(State())).envelopes;
    }

    method Half()
      requires Valid()
      modifies this
      ensures Valid() && State() == A.Half(old(State()))
    {
      halves := halves + 1;
      ghost var was := lengths;
      for c := 0 to 4
        invariant |lengths| == 4
        invariant unchanged(this`regs, this`envelopes, this`linear, this`reload, this`phase, this`quarters, this`frames, this`writes)
        invariant halves == old(halves) + 1
        invariant forall k {:trigger lengths[k]} :: 0 <= k < 4 ==>
          lengths[k] == if k < c then A.ClockLength(was[k], A.Halted(regs[4 * k], k)) else was[k]
      {
        if lengths[c] > 0 && !A.Halted(regs[4 * c], c) {
          lengths := lengths[c := lengths[c] - 1];
        }
      }
      assert lengths == A.Half(old(State())).lengths;
    }

    /** The register write itself, before any clock it causes. */
    method Store(index: nat, value: byte)
      requires Valid() && index < 24
      modifies this
      ensures Valid() && State() == A.Stored(old(State()), index, value)
    {
      regs := regs[index := value];
      writes := writes + 1;
      if index == 0x15 {
        lengths := seq(4, c requires 0 <= c < 4 reads this requires |lengths| == 4 => if A.Enabled(value, c) then lengths[c] else 0);
      } else if index == 0x17 {
        phase := 0;
      } else if A.HighRegister(index) {
        var c := index / 4;
        if c == 2 {
          reload := true;
        } else {
          envelopes := envelopes[c := envelopes[c].(restart := true)];
        }
        if A.Enabled(regs[0x15], c) {
          lengths := lengths[c := A.LengthOf(value / 8)];
        }
      }
    }

    /** A refused write changes nothing. */
    method Write(address: int, value: int) returns (accepted: bool)
      requires Valid()
      modifies this
      ensures Valid() && accepted == A.Write(old(State()), address, value).Some?
      ensures State() == A.Handle(old(State()), A.WriteEvent(address, value))
    {
      accepted := A.Register(address) && 0 <= value <= 0xFF;
      if accepted {
        var index := address - 0x4000;
        Store(index, value);
        ghost var stored := State();
        if index == 0x17 && A.Bit7(value) {
          Half();
          Quarter();
          A.HalfThenQuarter(stored);
        }
      }
    }

    /** One sequencer opportunity. */
    method PhaseStep()
      requires Valid()
      modifies this
      ensures Valid() && State() == A.PhaseStep(old(State()))
    {
      var five := A.Bit7(regs[23]);
      var half, quarter := A.HalfAt(five, phase), A.QuarterAt(five, phase);
      A.ClocksOfPhase(State());
      if half {
        Half();
      }
      if quarter {
        Quarter();
      }
      phase := (phase + 1) % A.Steps(five);
    }

    method Frame()
      requires Valid()
      modifies this
      ensures Valid() && State() == A.Handle(old(State()), A.FrameEvent)
    {
      for i := 0 to 4
        invariant Valid() && State() == A.PhaseSteps(old(State()), i)
      {
        PhaseStep();
      }
      frames := frames + 1;
    }

    method Volume(c: int) returns (volume: Option<nat>)
      requires Valid()
      ensures volume == A.Volume(State(), c)
    {
      if !(0 <= c < 4) {
        return None;
      }
      if lengths[c] == 0 || !A.Enabled(regs[21], c) {
        return Some(0);
      }
      if c == 2 {
        return Some(if linear > 0 then 66 else 0);
      }
      var raw := if regs[4 * c] / 16 % 2 == 1 then regs[4 * c] as nat % 16 else envelopes[c].decay;
      volume := Some(raw * (if c == 3 then 4 else 6));
    }
  }
}
