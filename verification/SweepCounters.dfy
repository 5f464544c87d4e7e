/** The sweep layer as an object over the counters it extends (tools/apu_sweep_model.py:10-54). The clocks that a
  * $4017 write or a frame causes are the extended ones. */
module SweepCounters {
  import opened Bytes
  import A = ApuModel
  import S = ApuSweep
  import opened ApuCounters

  class SweepCounters {
    const base: Counters
    var pulses: seq<S.Pulse>

    ghost predicate Valid()
      reads this, base
    {
      base.Valid() && |pulses| == 2
    }

    ghost function State(): S.Sweep
      reads this, base
    {
      S.Sweep(base.State(), pulses)
    }

    constructor ()
      ensures Valid() && fresh(base) && State() == S.Initial()
    {
      base := new Counters();
      pulses := S.Initial().pulses;
    }

    method Half()
      requires Valid()
      modifies this, base
      ensures Valid() && State() == S.Half(old(State()))
    {
      hide A.Half;
      base.Half();
      A.HalfKeepsRegisters(old(base.State()));
      ghost var was := pulses;
      for c := 0 to 2
        invariant Valid() && base.State() == A.Half(old(base.State()))
        invariant forall k {:trigger pulses[k]} :: 0 <= k < 2 ==>
          pulses[k] == if k < c then S.ClockPulse(was[k], base.regs[4 * k + 1], k) else was[k]
      {
        var control := base.regs[4 * c + 1];
        var p := pulses[c];
        if p.divider == 0 && S.Sweeps(control) && !S.Muted(p.period, control, c) {
          pulses := pulses[c := p.(period := S.Target(p.period, control, c))];
        }
        if p.divider == 0 || p.reload {
          pulses := pulses[c := S.Pulse(pulses[c].period, S.Interval(control), false)];
        } else {
          pulses := pulses[c := pulses[c].(divider := p.divider - 1)];
        }
      }
      assert pulses == S.Half(old(State())).pulses;
    }

    method Clock(half: bool, quarter: bool)
      requires Valid()
      modifies this, base
      ensures Valid()
      ensures State() == var t := if half then S.Half(old(State())) else old(State()); if quarter then S.Quarter(t) else t
    {
      if half {
        Half();
      }
      if quarter {
        base.Quarter();
      }
    }

    method Write(address: int, value: int) returns (accepted: bool)
      requires Valid()
      modifies this, base
      ensures Valid() && accepted == S.Write(old(State()), address, value).Some?
      ensures State() == S.Handle(old(State()), A.WriteEvent(address, value))
    {
      hide S.Half, S.Quarter, A.Stored;
      accepted := A.Register(address) && 0 <= value <= 0xFF;
      if accepted {
        var index := address - 0x4000;
        base.Store(index, value);
        var both := index == 0x17 && A.Bit7(value);
        S.ClocksInOrder(State());
        Clock(both, both);
        if index < 8 {
          var p := pulses[index / 4];
          if index % 4 == 1 {
            pulses := pulses[index / 4 := p.(reload := true)];
          } else if index % 4 == 2 {
            pulses := pulses[index / 4 := p.(period := p.period / 0x100 % 8 * 0x100 + value)];
          } else if index % 4 == 3 {
            pulses := pulses[index / 4 := p.(period := p.period % 0x100 + value % 8 * 0x100)];
          }
          assert pulses[index / 4] == S.StoredPulse(p, index % 4, value);
        }
      }
    }

    method PhaseStep()
      requires Valid()
      modifies this, base
      ensures Valid() && State() == S.PhaseStep(old(State()))
    {
      hide S.Half, S.Quarter;
      var five := A.Bit7(base.regs[23]);
      var phase := base.phase;
      S.ClocksInOrder(State());
      S.ClocksOfPhase(State());
      Clock(A.HalfAt(five, phase), A.QuarterAt(five, phase));
      base.phase := (phase + 1) % A.Steps(five);
    }

    method Frame()
      requires Valid()
      modifies this, base
      ensures Valid() && State() == S.Handle(old(State()), A.FrameEvent)
    {
      hide S.PhaseStep;
      for i := 0 to 4
        invariant Valid() && State() == S.PhaseSteps(old(State()), i)
      {
        PhaseStep();
      }
      base.frames := base.frames + 1;
    }

    method Volume(c: int) returns (volume: Option<nat>)
      requires Valid()
      ensures volume == S.Volume(State(), c)
    {
      volume := base.Volume(c);
      if volume.Some? && 0 <= c < 2 && S.Muted(pulses[c].period, base.regs[4 * c + 1], c) {
        volume := Some(0);
      }
    }
  }
}
