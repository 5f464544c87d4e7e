/** What the emitted code of each control instruction does, opcode by opcode, to the registers and to the bytes of the
  * stack page (tools/timeline_program.py:214-238). */
module GuestEffects {
  import opened Bytes
  import opened StatusRegister
  import opened Opcodes
  import opened GuestCycles
  import opened InterruptBoundary
  import opened GuestMachine

  /** The page with one byte stored. */
  function Stored(page: Page, at: byte, value: byte): Page {
    page[at := value]
  }

  /** S one lower and one higher, inside the page. */
  function Lower(s: byte, n: nat): byte {
    (s - n) % 0x100
  }

  function Raise(s: byte, n: nat): byte {
    (s + n) % 0x100
  }

  lemma Steps(s: byte)
    ensures Down(s) == Lower(s, 1) && Down(Down(s)) == Lower(s, 2) && Down(Down(Down(s))) == Lower(s, 3)
    ensures Up(s) == Raise(s, 1) && Up(Up(s)) == Raise(s, 2) && Up(Up(Up(s))) == Raise(s, 3)
  {}

  lemma ControlOpcodes()
    ensures Lookup(0x08) == Op(PHP, Imp) && Lookup(0x28) == Op(PLP, Imp) && Lookup(0x48) == Op(PHA, Imp)
    ensures Lookup(0x68) == Op(PLA, Imp) && Lookup(0xBA) == Op(TSX, Imp) && Lookup(0x9A) == Op(TXS, Imp)
    ensures Lookup(0x58) == Op(CLI, Imp) && Lookup(0x78) == Op(SEI, Imp) && Lookup(0xD8) == Op(CLD, Imp)
    ensures Lookup(0xF8) == Op(SED, Imp)
  {}

  lemma CallOpcodes()
    ensures Lookup(0x20) == Op(JSR, Abs) && Lookup(0x40) == Op(RTI, Imp) && Lookup(0x60) == Op(RTS, Imp)
    ensures Lookup(0x4C) == Op(JMP, Abs) && Lookup(0x6C) == Op(JMP, Ind)
  {}

  /** The four instructions on single flags. */
  lemma MasksByOpcode(g: Guest, operand: word, e: Effect)
    ensures var next := g.(pc := (g.pc + 1) % 0x1_0000);
      && Execute(g, Row(0x58, operand), e) == next.(p := g.p.(i := false))
      && Execute(g, Row(0x78, operand), e) == next.(p := g.p.(i := true))
  {
    ControlOpcodes();
    hide Lookup;
  }

  lemma DecimalsByOpcode(g: Guest, operand: word, e: Effect)
    ensures var next := g.(pc := (g.pc + 1) % 0x1_0000);
      && Execute(g, Row(0xD8, operand), e) == next.(p := g.p.(d := false))
      && Execute(g, Row(0xF8, operand), e) == next.(p := g.p.(d := true))
  {
    ControlOpcodes();
    hide Lookup;
  }

  /** PHA and PHP store at S and lower it; the stored status has B and the unused bit set. */
  lemma PushesByOpcode(g: Guest, operand: word, e: Effect)
    ensures var next := g.(pc := (g.pc + 1) % 0x1_0000); var k := g.stack;
      && Execute(g, Row(0x48, operand), e) == next.(stack := Stack(Stored(k.page, k.s, g.a), Lower(k.s, 1)))
      && Execute(g, Row(0x08, operand), e)
         == next.(stack := Stack(Stored(k.page, k.s, Pack(g.p.(b := true, u := true))), Lower(k.s, 1)))
  {
    ControlOpcodes();
    Steps(g.stack.s);
    hide Lookup, Pack, Down;
  }

  /** PLA and PLP take the byte above S; only PLA sets N and Z from it. */
  lemma PullsByOpcode(g: Guest, operand: word, e: Effect)
    ensures var s := Raise(g.stack.s, 1); var top := g.stack.page[s];
      var next := g.(pc := (g.pc + 1) % 0x1_0000, stack := g.stack.(s := s));
      && Execute(g, Row(0x68, operand), e) == next.(a := top, p := g.p.(n := top >= 0x80, z := top == 0))
      && Execute(g, Row(0x28, operand), e) == next.(p := Unpack(top))
  {
    ControlOpcodes();
    Steps(g.stack.s);
    hide Lookup, Unpack, Up;
  }

  /** TSX sets N and Z, TXS no flag. */
  lemma TransfersByOpcode(g: Guest, operand: word, e: Effect)
    ensures var s := g.stack.s; var next := g.(pc := (g.pc + 1) % 0x1_0000);
      && Execute(g, Row(0xBA, operand), e) == next.(x := s, p := g.p.(n := s >= 0x80, z := s == 0))
      && Execute(g, Row(0x9A, operand), e) == next.(stack := g.stack.(s := g.x))
  {
    ControlOpcodes();
    hide Lookup;
  }

  /** JSR stores the address of its last byte, high byte first. */
  lemma CallByOpcode(g: Guest, operand: word, e: Effect)
    ensures var s := g.stack.s; var back := (g.pc + 2) % 0x1_0000;
      Execute(g, Row(0x20, operand), e)
      == g.(pc := operand,
            stack := Stack(Stored(Stored(g.stack.page, s, back / 0x100), Lower(s, 1), back % 0x100), Lower(s, 2)))
  {
    CallOpcodes();
    Steps(g.stack.s);
    hide Lookup, Down;
    var words := Words(Plus(g.pc, 2));
    assert words[1..] == [words[1]] && words[1..][1..] == [];
    assert PushAll(g.stack, words) == Push(Push(PushAll(g.stack, []), words[1]), words[0]);
  }

  /** RTS goes on after the address above S; RTI takes the status first, and its address as it is. */
  lemma ReturnsByOpcode(g: Guest, operand: word, e: Effect)
    ensures var page := g.stack.page; var s := g.stack.s;
      && Execute(g, Row(0x60, operand), e)
         == g.(pc := (page[Raise(s, 1)] as int + 0x100 * page[Raise(s, 2)] as int + 1) % 0x1_0000,
               stack := g.stack.(s := Raise(s, 2)))
      && Execute(g, Row(0x40, operand), e)
         == g.(p := Unpack(page[Raise(s, 1)]), pc := page[Raise(s, 2)] as int + 0x100 * page[Raise(s, 3)] as int,
               stack := g.stack.(s := Raise(s, 3)))
  {
    CallOpcodes();
    Steps(g.stack.s);
    hide Lookup, Unpack, Up;
  }

  lemma JumpsByOpcode(g: Guest, operand: word, e: Effect)
    ensures Execute(g, Row(0x4C, operand), e) == g.(pc := operand)
    ensures Execute(g, Row(0x6C, operand), e) == g.(pc := e.target)
  {
    CallOpcodes();
    hide Lookup;
  }

  /** An interrupt stores the address it interrupts, high byte first, and the status with B clear and the unused bit set;
    * then it sets I and goes to its vector. */
  lemma EntryByBytes(g: Guest, b: Boundary)
    requires b.after == g.p && b.pc == g.pc && b.s == g.stack.s && b.nmi == g.nmi && !Decide(b).Nothing?
    ensures var s := g.stack.s;
      Cross(g, b)
      == g.(time := g.time + 7, p := g.p.(i := true), nmi := g.nmi && !b.nmi, ordinal := g.ordinal + 1,
            pc := if b.nmi then b.nmiVector else b.irqVector,
            stack := Stack(Stored(Stored(Stored(g.stack.page, s, g.pc / 0x100), Lower(s, 1), g.pc % 0x100), Lower(s, 2),
                                  Pack(g.p.(b := false, u := true))),
                           Lower(s, 3)))
  {
    Steps(g.stack.s);
    hide Pack, Down;
    var f := Frame(b);
    assert f[1..] == [f[1], f[2]] && f[1..][1..] == [f[2]] && f[1..][1..][1..] == [];
    assert PushAll(g.stack, [f[2]]) == Push(PushAll(g.stack, []), f[2]);
    assert PushAll(g.stack, [f[1], f[2]]) == Push(PushAll(g.stack, [f[2]]), f[1]);
    assert PushAll(g.stack, f) == Push(PushAll(g.stack, [f[1], f[2]]), f[0]);
  }

  // ---- when an IRQ enters ----

  lemma DelayedOpcodes(opcode: byte)
    requires Known(opcode)
    ensures DelayedMask(opcode) <==> Lookup(opcode).name == CLI || Lookup(opcode).name == SEI || Lookup(opcode).name == PLP
  {}

  /** Every documented instruction but BRK may be followed by an entry. */
  lemma SupportedExactly(opcode: byte)
    ensures Supported(opcode) <==> Lookup(opcode).Op? && Lookup(opcode).name != BRK
  {
    BreakOpcode(opcode);
    hide Lookup;
  }

  lemma BreakOpcode(opcode: byte)
    ensures Lookup(opcode).Op? ==> (Lookup(opcode).name == BRK <==> opcode == 0x00)
  {}

  /** An IRQ enters exactly when the line is raised, no NMI is pending, and the polled I is clear: that of before the
    * instruction for CLI, SEI and PLP, and that of after it for every other one. So an RTI that clears I lets a pending
    * IRQ in at once, and a CLI does not. */
  lemma IrqEntersExactly(b: Boundary)
    requires Known(b.opcode)
    ensures var name := Lookup(b.opcode).name;
      Decide(b) == EnterIrq
      <==> b.irq && !b.nmi && !(if name == CLI || name == SEI || name == PLP then b.before.i else b.after.i)
    ensures Decide(b) == EnterNmi <==> b.nmi
  {
    DelayedOpcodes(b.opcode);
    hide Lookup;
  }
}
