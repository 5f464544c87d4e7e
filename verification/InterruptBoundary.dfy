/** Interrupt entry at a completed instruction (tools/interrupt_boundary.py). */
module InterruptBoundary {
  import opened Bytes
  import opened StatusRegister
  import opened Opcodes

  const PAGE := 0x100

  type Page = s: seq<byte> | |s| == PAGE witness seq(PAGE, _ => 0)

  /** Every documented opcode but BRK. */
  predicate Supported(opcode: byte) {
    Known(opcode) && opcode != 0x00
  }

  /** PLP, CLI and SEI: the request is polled against the mask of before. */
  predicate DelayedMask(opcode: byte) {
    opcode == 0x28 || opcode == 0x58 || opcode == 0x78
  }

  datatype Boundary = Boundary(opcode: byte, before: Status, after: Status, irq: bool, nmi: bool, s: byte, pc: word,
                               irqVector: word, nmiVector: word)

  datatype Decision = Nothing | EnterIrq | EnterNmi

  function Polled(b: Boundary): Status {
    if DelayedMask(b.opcode) then b.before else b.after
  }

  function Decide(b: Boundary): Decision {
    if b.nmi then EnterNmi else if b.irq && !Polled(b).i then EnterIrq else Nothing
  }

  // ---- the wrapping stack page ----

  /** One place down, and one place up, inside page one. */
  function Down(s: byte): byte {
    if s == 0 then 0xFF else s - 1
  }

  function Up(s: byte): byte {
    if s == 0xFF then 0 else s + 1
  }

  datatype Stack = Stack(page: Page, s: byte)

  function Push(k: Stack, value: byte): Stack {
    Stack(k.page[k.s := value], Down(k.s))
  }

  function Top(k: Stack): byte {
    k.page[Up(k.s)]
  }

  function Pop(k: Stack): Stack {
    k.(s := Up(k.s))
  }

  /** Pushes the bytes from the last one to the first: the first ends on top. */
  function PushAll(k: Stack, bytes: seq<byte>): Stack {
    if bytes == [] then k else Push(PushAll(k, bytes[1..]), bytes[0])
  }

  /** An interrupt frame from its top: status with B clear, then the return address. */
  function Frame(b: Boundary): seq<byte> {
    [Pack(b.after.(b := false, u := true)), b.pc % 0x100, b.pc / 0x100]
  }

  /** The boundary after the decision has been carried out. */
  function Settled(b: Boundary): Boundary {
    match Decide(b)
    case Nothing => b
    case EnterIrq => b.(after := b.after.(i := true), s := Down(Down(Down(b.s))), pc := b.irqVector)
    case EnterNmi => b.(after := b.after.(i := true), s := Down(Down(Down(b.s))), pc := b.nmiVector, nmi := false)
  }

  function EntryCost(b: Boundary): byte {
    if Decide(b).Nothing? then 0 else 7
  }

  datatype Error = UnsupportedInstruction | IncompleteStack

  function Flag(raised: bool): byte {
    if raised then 1 else 0
  }

  function Code(d: Decision): byte {
    match d case Nothing => 0 case EnterIrq => 1 case EnterNmi => 2
  }

  /** Byte k of the descriptor: the boundary, with decision and cost at 8 and 9 and two bytes reserved. */
  function Field(b: Boundary, d: Decision, cost: byte, k: nat): byte {
    if k == 0 then b.opcode else if k == 1 then Pack(b.before) else if k == 2 then Pack(b.after)
    else if k == 3 then Flag(b.irq) else if k == 4 then Flag(b.nmi) else if k == 5 then b.s
    else if k == 6 then b.pc % 0x100 else if k == 7 then b.pc / 0x100
    else if k == 8 then Code(d) else if k == 9 then cost
    else if k == 12 then b.irqVector % 0x100 else if k == 13 then b.irqVector / 0x100
    else if k == 14 then b.nmiVector % 0x100 else if k == 15 then b.nmiVector / 0x100
    else 0
  }

  /** The 16 bytes shared with the native routine. */
  function Descriptor(b: Boundary, d: Decision, cost: byte): (r: seq<byte>)
    ensures |r| == 16 && forall k {:trigger r[k]} :: 0 <= k < 16 ==> r[k] == Field(b, d, cost, k)
  {
    seq(16, k requires 0 <= k < 16 => Field(b, d, cost, k))
  }

  /** The boundary a descriptor stands for. */
  function Described(data: seq<byte>): Boundary
    requires |data| == 16
  {
    Boundary(data[0], Unpack(data[1]), Unpack(data[2]), data[3] == 1, data[4] == 1, data[5], LittleEndian(data[6], data[7]),
             LittleEndian(data[12], data[13]), LittleEndian(data[14], data[15]))
  }

  /** The layout loses nothing. */
  lemma DescriptorRoundTrip(b: Boundary, d: Decision, cost: byte)
    ensures Described(Descriptor(b, d, cost)) == b
    ensures Descriptor(b, d, cost)[8] == Code(d) && Descriptor(b, d, cost)[9] == cost
  {
    hide Pack, Unpack, Descriptor;
    UnpackPack(b.before);
    UnpackPack(b.after);
  }

  /** The descriptor handed back, and the stack page. */
  datatype Entered = Refused(error: Error) | Entered(data: seq<byte>, stack: Page)

  /** Descriptor and stack after the boundary; neither input is changed. */
  method Enter(b: Boundary, stack: seq<byte>) returns (r: Entered)
    ensures r == Refused(UnsupportedInstruction) <==> !Supported(b.opcode)
    ensures r == Refused(IncompleteStack) <==> Supported(b.opcode) && |stack| != PAGE
    ensures r.Entered? <==> Supported(b.opcode) && |stack| == PAGE
    ensures r.Entered? ==>
      && r.data == Descriptor(Settled(b), Decide(b), EntryCost(b))
      && r.data[8] == (match Decide(b) case Nothing => 0 case EnterIrq => 1 case EnterNmi => 2)
      && r.data[9] == (if Decide(b).Nothing? then 0 else 7)
      && r.stack == (if Decide(b).Nothing? then stack else PushAll(Stack(stack, b.s), Frame(b)).page)
  {
    hide Pack, Opcodes.Lookup, PushAll;
    if !Supported(b.opcode) {
      return Refused(UnsupportedInstruction);
    }
    if |stack| != PAGE {
      return Refused(IncompleteStack);
    }
    var data, k := Descriptor(b, Nothing, 0), Stack(stack, b.s);
    var kind := Decide(b);
    if kind != Nothing {
      k := PushFrame(b, k);
      ThreeDown(b.s);
      data := data[2 := Pack(b.after.(i := true))];
      if kind.EnterNmi? {
        data := data[4 := 0];
      }
      data := data[5 := k.s];
      var vector := if kind.EnterNmi? then b.nmiVector else b.irqVector;
      data := data[6 := vector % 0x100][7 := vector / 0x100];
      data := data[8 := Code(kind)][9 := 7];
    }
    assert data == Descriptor(Settled(b), kind, EntryCost(b));
    r := Entered(data, k.page);
  }

  /** The stack pointer after n pushes. */
  function DownBy(s: byte, n: nat): byte {
    if n == 0 then s else Down(DownBy(s, n - 1))
  }

  lemma ThreeDown(s: byte)
    ensures DownBy(s, 3) == Down(Down(Down(s)))
  {
    hide Down;
    assert DownBy(s, 1) == Down(DownBy(s, 0));
    assert DownBy(s, 2) == Down(DownBy(s, 1));
  }

  lemma PushNext(k: Stack, bytes: seq<byte>, n: nat)
    requires n < |bytes|
    ensures PushAll(k, bytes[n..]) == Push(PushAll(k, bytes[n + 1..]), bytes[n])
    ensures Push(k, bytes[n]).s == Down(k.s)
  {
    assert bytes[n..][1..] == bytes[n + 1..];
  }

  method PushFrame(b: Boundary, start: Stack) returns (k: Stack)
    ensures k == PushAll(start, Frame(b)) && k.s == DownBy(start.s, 3)
  {
    hide Pack, Push, Down;
    var values := [b.pc / 0x100, b.pc % 0x100, Pack(b.after.(b := false, u := true))];
    k := start;
    ghost var frame := Frame(b);
    assert frame[3..] == [];
    for n := 0 to 3
      invariant k == PushAll(start, frame[3 - n..]) && k.s == DownBy(start.s, n)
    {
      hide PushAll;
      PushNext(start, frame, 2 - n);
      assert values[n] == frame[2 - n];
      PushNext(k, frame, 2 - n);
      k := Push(k, values[n]);
    }
    assert frame[0..] == frame;
  }
}
