/** The composed guest timeline: an instruction is executed, charged and retired;
    due events are consumed; an interrupt may be entered (tools/timeline_program.py,
    snes/src/guest_timeline.inc). */
module GuestMachine {
  import opened Bytes
  import opened StatusRegister
  import opened Opcodes
  import opened GuestCycles
  import opened InterruptBoundary

  datatype Event = Event(cycle: nat, irq: bool, nmi: bool)

  /** An original instruction at a declared entry: its opcode and operand. */
  datatype Row = Row(opcode: byte, operand: word)

  datatype Config = Config(program: map<word, Row>, events: seq<Event>, irqVector: word, nmiVector: word)

  datatype Guest = Guest(time: nat, pc: word, a: byte, x: byte, y: byte, p: Status, stack: Stack,
                         irq: bool, nmi: bool, index: nat, ordinal: nat)

  /** What the native ALU and the memory hand back: registers, the four arithmetic
      flags, the stack page, an indirect jump target, and a captured pointer. Every
      value of these is considered. */
  datatype Effect = Effect(a: byte, x: byte, y: byte, n: bool, v: bool, z: bool, c: bool, page: Page, target: word,
                           pointer: Option<word>)

  /** At most 64 events at strictly increasing positive cycles. */
  ghost predicate Increasing(events: seq<Event>) {
    && |events| <= 64
    && (forall i {:trigger events[i]} :: 0 <= i < |events| ==> 0 < events[i].cycle)
    && (forall i, j :: 0 <= i < j < |events| ==> events[i].cycle < events[j].cycle)
  }

  ghost predicate ValidEvents(events: seq<Event>) {
    Increasing(events) && forall i {:trigger events[i]} :: 0 <= i < |events| ==> events[i].cycle <= 0xFFFF_FF00
  }

  /** Program rows are what the decoder admits: documented, not BRK, operand as wide as the opcode says. */
  ghost predicate ValidProgram(program: map<word, Row>) {
    forall pc <- program ::
      && Supported(program[pc].opcode)
      && (Size(program[pc].opcode) == 1 ==> program[pc].operand == 0)
      && (Size(program[pc].opcode) == 2 ==> program[pc].operand <= 0xFF)
  }

  ghost predicate Valid(config: Config) {
    ValidEvents(config.events) && ValidProgram(config.program)
  }

  function Plus(pc: word, n: nat): word {
    (pc + n) % 0x1_0000
  }

  function WithNZ(p: Status, value: byte): Status {
    p.(n := value >= 0x80, z := value == 0)
  }

  /** Calls and returns, which go through the software stack. */
  predicate IsCall(name: Name) {
    name.JSR? || name.RTS? || name.RTI?
  }

  /** Pushes, pulls and pointer transfers. */
  predicate IsTransfer(name: Name) {
    name.PHA? || name.PHP? || name.PLA? || name.PLP? || name.TSX? || name.TXS?
  }

  function PerformCall(g: Guest, name: Name, operand: word): Guest {
    var k := Pop(g.stack);
    if name.JSR? then g.(stack := PushAll(g.stack, Words(Plus(g.pc, 2))), pc := operand)
    else if name.RTS? then g.(pc := Plus(LittleEndian(Top(g.stack), Top(k)), 1), stack := Pop(k))
    else g.(p := Unpack(Top(g.stack)), pc := LittleEndian(Top(k), Top(Pop(k))), stack := Pop(Pop(k)))
  }

  function PerformTransfer(g: Guest, name: Name): Guest {
    var top := Top(g.stack);
    if name.PHA? then g.(stack := Push(g.stack, g.a))
    else if name.PHP? then g.(stack := Push(g.stack, Pack(g.p.(b := true, u := true))))
    else if name.PLA? then g.(a := top, stack := Pop(g.stack), p := WithNZ(g.p, top))
    else if name.PLP? then g.(p := Unpack(top), stack := Pop(g.stack))
    else if name.TSX? then g.(x := g.stack.s, p := WithNZ(g.p, g.stack.s))
    else g.(stack := g.stack.(s := g.x))
  }

  /** Flag instructions act on the saved status; every other operation runs natively
      and only its arithmetic flags are taken over. */
  function PerformPlain(g: Guest, name: Name, e: Effect): Guest {
    if name.CLI? then g.(p := g.p.(i := false))
    else if name.SEI? then g.(p := g.p.(i := true))
    else if name.CLD? then g.(p := g.p.(d := false))
    else if name.SED? then g.(p := g.p.(d := true))
    else
      g.(a := e.a, x := e.x, y := e.y, p := g.p.(n := e.n, v := e.v, z := e.z, c := e.c),
         stack := g.stack.(page := e.page))
  }

  /** The instruction semantics that the translator emits. */
  function Perform(g: Guest, name: Name, mode: Mode, operand: word, e: Effect): Guest {
    var displacement: byte := operand % 0x100;
    var next := g.(pc := Plus(g.pc, Length(mode)));
    if name.JMP? then g.(pc := if mode.Ind? then e.target else operand)
    else if IsBranch(name) then
      g.(pc := if BranchTaken(name, g.p) then BranchTarget(g.pc, displacement) else Plus(g.pc, 2))
    else if IsCall(name) then PerformCall(g, name, operand)
    else if IsTransfer(name) then PerformTransfer(next, name)
    else PerformPlain(next, name, e)
  }

  function Execute(g: Guest, row: Row, e: Effect): Guest
    requires Known(row.opcode)
  {
    var op := Lookup(row.opcode);
    Perform(g, op.name, op.mode, row.operand, e)
  }

  function Words(w: word): seq<byte> {
    [w % 0x100, w / 0x100]
  }

  datatype Requests = Requests(irq: bool, nmi: bool, index: nat)

  /** Every event due by now: the line takes the last value, the latch remembers. */
  function Consume(events: seq<Event>, r: Requests, now: nat): (r': Requests)
    requires r.index <= |events|
    ensures r.index <= r'.index <= |events|
    decreases |events| - r.index
  {
    if r.index < |events| && events[r.index].cycle <= now then
      var e := events[r.index];
      Consume(events, Requests(e.irq, r.nmi || e.nmi, r.index + 1), now)
    else r
  }

  /** The clock must have room for the longest instruction and an entry. */
  const CLOCK_LIMIT := 0xFFFF_FFF2

  datatype Fault = UnknownPc | ClockFull | BadCost(error: CostError)

  /** The boundary at which the executed instruction retires. */
  function BoundaryOf(c: Config, g: Guest, row: Row, done: Guest, requests: Requests): Boundary {
    Boundary(row.opcode, g.p, done.p, requests.irq, requests.nmi, done.stack.s, done.pc, c.irqVector, c.nmiVector)
  }

  /** One step in detail: where it starts, what the ALU and memory do, the row, the
      state after execution, the requests after the due events, the boundary that is
      decided, and the state the step ends in. */
  datatype Step = Step(start: Guest, effect: Effect, row: Row, done: Guest, cost: nat, requests: Requests,
                       boundary: Boundary, end: Guest)

  /** The state past its boundary: the entry pushes a frame and takes its cycles. */
  function Cross(g: Guest, b: Boundary): Guest {
    var o := Settled(b);
    g.(time := g.time + EntryCost(b), p := o.after, pc := o.pc, nmi := o.nmi, ordinal := g.ordinal + 1,
       stack := if Decide(b).Nothing? then g.stack else PushAll(g.stack, Frame(b)))
  }

  datatype Retirement = Retirement(cost: nat, requests: Requests, boundary: Boundary, end: Guest)

  /** Charges the instruction that led from before to done, consumes what is due,
      and carries out the boundary decision. */
  function Retired(c: Config, before: Guest, row: Row, done: Guest, pointer: Option<word>): Result<Retirement, Fault>
    requires before.index <= |c.events|
  {
    if before.time >= CLOCK_LIMIT then Err(ClockFull)
    else match Cost(Instruction(row.opcode, before.pc, row.operand, before.p, before.x, before.y, pointer))
      case Err(error) => Err(BadCost(error))
      case Ok(cost) =>
        var requests := Consume(c.events, Requests(before.irq, before.nmi, before.index), before.time + cost);
        var boundary := BoundaryOf(c, before, row, done, requests);
        var charged := done.(time := before.time + cost, irq := requests.irq, nmi := requests.nmi, index := requests.index);
        Ok(Retirement(cost, requests, boundary, Cross(charged, boundary)))
  }

  function Take(c: Config, g: Guest, e: Effect): Result<Step, Fault>
    requires g.index <= |c.events|
  {
    if g.pc !in c.program || !Supported(c.program[g.pc].opcode) then Err(UnknownPc)
    else
      var row := c.program[g.pc];
      var done := Execute(g, row, e);
      match Retired(c, g, row, done, e.pointer)
      case Err(fault) => Err(fault)
      case Ok(r) => Ok(Step(g, e, row, done, r.cost, r.requests, r.boundary, r.end))
  }

  ghost predicate Taken(c: Config, s: Step) {
    s.start.index <= |c.events| && Take(c, s.start, s.effect) == Ok(s)
  }

  /** A whole run: each step starts where the one before it ended. */
  ghost predicate IsRun(c: Config, run: seq<Step>) {
    && Valid(c)
    && (forall k {:trigger run[k]} :: 0 <= k < |run| ==> Taken(c, run[k]))
    && (forall k {:trigger run[k]} :: 0 < k < |run| ==> run[k].start == run[k - 1].end)
  }
}
