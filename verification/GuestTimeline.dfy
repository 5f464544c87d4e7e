/** The guest context updated field by field, as the emitted code and the retirement
    routine do (generate in tools/timeline_program.py, GuestTimelineRetire in
    snes/src/guest_timeline.inc). */
module GuestTimeline {
  import opened Bytes
  import opened StatusRegister
  import opened Opcodes
  import opened GuestCycles
  import opened InterruptBoundary
  import opened GuestMachine
  import GuestSafety

  lemma PushWords(k: Stack, w: word)
    ensures PushAll(k, Words(w)) == Push(Push(k, w / 0x100), w % 0x100)
  {
    var words := Words(w);
    assert words[1..] == [w / 0x100] && words[1..][1..] == [];
    assert PushAll(k, words[1..]) == Push(PushAll(k, []), w / 0x100);
  }

  class Timeline {
    var time: nat
    var pc: word
    var a: byte
    var x: byte
    var y: byte
    var p: Status
    var s: byte
    var irq: bool
    var nmi: bool
    var index: nat
    var ordinal: nat
    var page: Page

    constructor (pc: word, a: byte, x: byte, y: byte, p: Status, s: byte, page: Page)
      ensures State() == Guest(0, pc, a, x, y, p, Stack(page, s), false, false, 0, 0)
    {
      this.time, this.pc, this.a, this.x, this.y, this.p, this.s := 0, pc, a, x, y, p, s;
      this.irq, this.nmi, this.index, this.ordinal, this.page := false, false, 0, 0, page;
    }

    function State(): Guest
      reads this
    {
      Guest(time, pc, a, x, y, p, Stack(page, s), irq, nmi, index, ordinal)
    }

    method PushByte(value: byte)
      modifies this`page, this`s
      ensures Stack(page, s) == Push(old(Stack(page, s)), value)
    {
      page := page[s := value];
      s := Down(s);
    }

    method PullByte() returns (value: byte)
      modifies this`s
      ensures value == Top(old(Stack(page, s))) && Stack(page, s) == Pop(old(Stack(page, s)))
    {
      s := Up(s);
      value := page[s];
    }

    method SetNZ(value: byte)
      modifies this`p
      ensures p == WithNZ(old(p), value)
    {
      p := p.(n := value >= 0x80, z := value == 0);
    }

    method Transfer(name: Name)
      requires IsTransfer(name)
      modifies this
      ensures State() == PerformTransfer(old(State()), name)
    {
      hide Pack, Unpack, Push, Pop, Top;
      if name.PHA? {
        PushByte(a);
      } else if name.PHP? {
        PushByte(Pack(p.(b := true, u := true)));
      } else if name.PLA? {
        a := PullByte();
        SetNZ(a);
      } else if name.PLP? {
        var value := PullByte();
        p := Unpack(value);
      } else if name.TSX? {
        x := s;
        SetNZ(x);
      } else {
        s := x;
      }
    }

    method CallOrReturn(name: Name, operand: word)
      requires IsCall(name)
      modifies this
      ensures State() == PerformCall(old(State()), name, operand)
    {
      hide Pack, Unpack, Push, Pop, Top;
      if name.JSR? {
        var ret := Plus(pc, 2);
        PushWords(Stack(page, s), ret);
        PushByte(ret / 0x100);
        PushByte(ret % 0x100);
        pc := operand;
      } else if name.RTS? {
        var low := PullByte();
        var high := PullByte();
        pc := Plus(LittleEndian(low, high), 1);
      } else {
        var status := PullByte();
        p := Unpack(status);
        var low := PullByte();
        var high := PullByte();
        pc := LittleEndian(low, high);
      }
    }

    method Plain(name: Name, e: Effect)
      modifies this
      ensures State() == PerformPlain(old(State()), name, e)
    {
      if name.CLI? {
        p := p.(i := false);
      } else if name.SEI? {
        p := p.(i := true);
      } else if name.CLD? {
        p := p.(d := false);
      } else if name.SED? {
        p := p.(d := true);
      } else {
        a, x, y, page := e.a, e.x, e.y, e.page;
        p := p.(n := e.n, v := e.v, z := e.z, c := e.c);
      }
    }

    /** Runs one translated instruction, up to its jump to the retirement. */
    method ExecuteRow(row: Row, e: Effect)
      requires Known(row.opcode)
      modifies this
      ensures State() == Execute(old(State()), row, e)
    {
      hide Opcodes.Lookup, PerformCall, PerformTransfer, PerformPlain, BranchTarget, Plus, BranchTaken;
      var name, mode := Lookup(row.opcode).name, Lookup(row.opcode).mode;
      if name.JMP? {
        pc := if mode.Ind? then e.target else row.operand;
      } else if IsBranch(name) {
        pc := if BranchTaken(name, p) then BranchTarget(pc, row.operand % 0x100) else Plus(pc, 2);
      } else if IsCall(name) {
        CallOrReturn(name, row.operand);
      } else {
        pc := Plus(pc, Length(mode));
        if IsTransfer(name) {
          Transfer(name);
        } else {
          Plain(name, e);
        }
      }
    }

    /** The loop over due events. */
    method ConsumeDue(events: seq<Event>)
      requires index <= |events|
      modifies this`irq, this`nmi, this`index
      ensures Requests(irq, nmi, index) == Consume(events, old(Requests(irq, nmi, index)), time)
    {
      while index < |events| && events[index].cycle <= time
        invariant index <= |events|
        invariant Consume(events, Requests(irq, nmi, index), time) == Consume(events, old(Requests(irq, nmi, index)), time)
      {
        irq, nmi := events[index].irq, nmi || events[index].nmi;
        index := index + 1;
      }
    }

    /** Takes over what the entry routine hands back. */
    method CrossBoundary(b: Boundary)
      requires Supported(b.opcode)
      requires b.after == p && b.nmi == nmi && b.s == s && b.pc == pc
      modifies this
      ensures State() == Cross(old(State()), b)
    {
      hide Opcodes.Lookup, PushAll, Frame, Pack, Unpack, Descriptor, Field, Settled, Decide, EntryCost;
      var entered := Enter(b, page);
      EntryDepth(Stack(page, s), b);
      DescriptorRoundTrip(Settled(b), Decide(b), EntryCost(b));
      var data := entered.data;
      p, nmi, s, pc := Unpack(data[2]), data[4] == 1, data[5], LittleEndian(data[6], data[7]);
      page := entered.stack;
      time := time + data[9];
      ordinal := ordinal + 1;
    }

    /** Charges the completed instruction, consumes what is due, and decides the
        boundary. A fault leaves the executed instruction in place. */
    method Retire(c: Config, row: Row, before: Guest, pointer: Option<word>) returns (fault: Option<Fault>)
      requires index <= |c.events| && Supported(row.opcode)
      requires time == before.time && irq == before.irq && nmi == before.nmi && index == before.index
        && ordinal == before.ordinal
      modifies this
      ensures match Retired(c, before, row, old(State()), pointer)
        case Ok(r) => fault.None? && State() == r.end
        case Err(f) => fault == Some(f) && State() == old(State())
    {
      hide Opcodes.Lookup, Cost, Execute, PushAll, Pack, Consume, Cross;
      if time >= CLOCK_LIMIT {
        return Some(ClockFull);
      }
      var charged := Cost(Instruction(row.opcode, before.pc, row.operand, before.p, before.x, before.y, pointer));
      if charged.Err? {
        return Some(BadCost(charged.error));
      }
      time := time + charged.value;
      ConsumeDue(c.events);
      var boundary := Boundary(row.opcode, before.p, p, irq, nmi, s, pc, c.irqVector, c.nmiVector);
      CrossBoundary(boundary);
      fault := None;
    }

    /** One turn of the driver: dispatch by address, execute, retire. */
    method StepOnce(c: Config, e: Effect) returns (fault: Option<Fault>)
      requires index <= |c.events|
      modifies this
      ensures match Take(c, old(State()), e)
        case Ok(step) => fault.None? && State() == step.end
        case Err(UnknownPc) => fault == Some(UnknownPc) && State() == old(State())
        case Err(f) => fault == Some(f) && Executed(c, old(State()), e, State())
    {
      hide Opcodes.Lookup, Cost, Execute, PushAll, Pack, Consume;
      if pc !in c.program || !Supported(c.program[pc].opcode) {
        return Some(UnknownPc);
      }
      var row, before := c.program[pc], State();
      GuestSafety.ExecuteKeeps(before, row, e);
      ExecuteRow(row, e);
      fault := Retire(c, row, before, e.pointer);
    }
  }

  /** Admits exactly the event lists that a run may use. */
  method ValidateEvents(events: seq<Event>) returns (ok: bool)
    ensures ok <==> ValidEvents(events)
  {
    if |events| > 64 {
      return false;
    }
    var previous := 0;
    for i := 0 to |events|
      invariant ValidEvents(events[..i]) && previous == if i == 0 then 0 else events[i - 1].cycle
    {
      assert events[..i + 1] == events[..i] + [events[i]];
      if !(previous < events[i].cycle <= 0xFFFF_FF00) {
        NotValid(events, i);
        return false;
      }
      NextValid(events[..i], events[i]);
      previous := events[i].cycle;
    }
    assert events[..|events|] == events;
    ok := true;
  }

  lemma NextValid(events: seq<Event>, e: Event)
    requires ValidEvents(events) && |events| < 64 && e.cycle <= 0xFFFF_FF00
    requires e.cycle > if events == [] then 0 else events[|events| - 1].cycle
    ensures ValidEvents(events + [e])
  {
    var all := events + [e];
    forall i, j | 0 <= i < j < |all| ensures all[i].cycle < all[j].cycle {
      if j == |events| && i < j - 1 {
        assert events[i].cycle < events[j - 1].cycle;
      }
    }
  }

  lemma NotValid(events: seq<Event>, i: nat)
    requires i < |events|
    requires !((if i == 0 then 0 else events[i - 1].cycle) < events[i].cycle <= 0xFFFF_FF00)
    ensures !ValidEvents(events)
  {
    if i > 0 && events[i - 1].cycle >= events[i].cycle {
      assert !(events[i - 1].cycle < events[i].cycle);
    }
  }

  /** A fault after execution stops the run without undoing the instruction. */
  predicate Executed(c: Config, g: Guest, e: Effect, d: Guest) {
    g.pc in c.program && Known(c.program[g.pc].opcode) && d == Execute(g, c.program[g.pc], e)
  }

  lemma EntryDepth(k: Stack, b: Boundary)
    requires k.s == b.s
    ensures Settled(b).s == if Decide(b).Nothing? then k.s else PushAll(k, Frame(b)).s
  {
    hide Pack;
    var f := Frame(b);
    assert PushAll(k, f[1..]) == Push(PushAll(k, f[1..][1..]), f[1]);
    assert PushAll(k, f[1..][1..]) == Push(PushAll(k, f[1..][1..][1..]), f[2]);
  }
}
