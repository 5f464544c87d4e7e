/** The bank-selector veneer (bank_veneer in tools/direct_calls.py), line by line
    on the 65C816 instructions it emits. */
module Veneer {
  import opened Bytes
  import opened StatusRegister
  import opened Opcodes
  import opened HostArithmetic
  import opened BankImages

  /** The 65C816 state the veneer touches. The stack lists bytes from the last
      one pushed; the accumulator is its high byte (B) and its low byte. */
  class Cpu {
    var high: byte
    var low: byte
    var x: byte
    var y: byte
    var p: Status
    var stack: seq<byte>
    var dataBank: byte
    var programBank: byte
    var pc: word

    constructor (high: byte, low: byte, x: byte, y: byte, p: Status, stack: seq<byte>, programBank: byte, pc: word)
      ensures this.high == high && this.low == low && this.x == x && this.y == y && this.p == p
      ensures this.stack == stack && this.programBank == programBank && this.pc == pc
    {
      this.high, this.low, this.x, this.y, this.p := high, low, x, y, p;
      this.stack, this.programBank, this.pc, this.dataBank := stack, programBank, pc, 0;
    }

    /** Bit 5 clear selects a 16-bit accumulator. */
    predicate Wide()
      reads this`p
    {
      !p.u
    }

    method Php()
      modifies this`stack
      ensures stack == [Pack(p)] + old(stack)
    {
      stack := [Pack(p)] + stack;
    }

    method Plp()
      requires |stack| >= 1
      modifies this`stack, this`p
      ensures stack == old(stack)[1..] && p == Unpack(old(stack)[0])
    {
      p, stack := Unpack(stack[0]), stack[1..];
    }

    method Rep20()
      modifies this`p
      ensures p == old(p).(u := false)
    {
      p := p.(u := false);
    }

    method Sep20()
      modifies this`p
      ensures p == old(p).(u := true)
    {
      p := p.(u := true);
    }

    method Pha()
      modifies this`stack
      ensures stack == (if Wide() then [low, high] else [low]) + old(stack)
    {
      stack := (if Wide() then [low, high] else [low]) + stack;
    }

    /** Loads set N and Z. */
    method SetAccumulator(h: byte, l: byte)
      modifies this`high, this`low, this`p
      ensures low == l && high == (if Wide() then h else old(high))
      ensures p == old(p).(n := (if Wide() then h else l) >= 0x80, z := l == 0 && (Wide() ==> h == 0))
    {
      low := l;
      if Wide() {
        high := h;
      }
      p := p.(n := (if Wide() then h else l) >= 0x80, z := l == 0 && (Wide() ==> h == 0));
    }

    method Load(value: byte)
      requires !Wide()
      modifies this`low, this`high, this`p
      ensures low == value && high == old(high)
      ensures p == old(p).(n := value >= 0x80, z := value == 0)
    {
      SetAccumulator(high, value);
    }

    method AndWith(mask: byte)
      requires !Wide()
      modifies this`low, this`high, this`p
      ensures low == And(old(low), mask) && high == old(high) && p == old(p).(n := p.n, z := p.z)
    {
      SetAccumulator(high, And(low, mask));
    }

    method OrWith(bits: byte)
      requires !Wide()
      modifies this`low, this`high, this`p
      ensures low == Or(old(low), bits) && high == old(high) && p == old(p).(n := p.n, z := p.z)
    {
      SetAccumulator(high, Or(low, bits));
    }

    method ShiftRight()
      requires !Wide()
      modifies this`low, this`high, this`p
      ensures low == old(low) / 2 && high == old(high) && p == old(p).(n := p.n, z := p.z, c := old(low) % 2 == 1)
    {
      p := p.(c := low % 2 == 1);
      SetAccumulator(high, low / 2);
    }

    method Compare(value: byte)
      requires !Wide()
      modifies this`p
      ensures p == old(p).(n := p.n, z := low == value, c := low >= value)
    {
      p := p.(n := (low - value) % 0x100 >= 0x80, z := low == value, c := low >= value);
    }

    method ClearCarry()
      modifies this`p
      ensures p == old(p).(c := false)
    {
      p := p.(c := false);
    }

    /** Adds in binary or in decimal, as D says. */
    method Adc(value: byte)
      requires !Wide() && !p.c
      modifies this`low, this`high, this`p
      ensures low == Plus(old(low), value, old(p.d)) && high == old(high)
      ensures p == old(p).(n := p.n, z := p.z, v := p.v, c := Sum(old(low), value, old(p.d)) >= 0x100)
    {
      var sum := Sum(low, value, p.d);
      p := p.(v := (low >= 0x80) == (value >= 0x80) && (low >= 0x80) != (sum % 0x100 >= 0x80), c := sum >= 0x100);
      SetAccumulator(high, sum % 0x100);
    }

    method Pla()
      requires |stack| >= (if Wide() then 2 else 1)
      modifies this`stack, this`high, this`low, this`p
      ensures low == old(stack)[0] && high == (if old(Wide()) then old(stack)[1] else old(high))
      ensures p == old(p).(n := p.n, z := p.z)
      ensures stack == old(stack)[if old(Wide()) then 2 else 1..]
    {
      var size := if Wide() then 2 else 1;
      SetAccumulator(if Wide() then stack[1] else high, stack[0]);
      stack := stack[size..];
    }

    /** lda n,s: n counts from 1 at the last byte pushed. */
    method LdaStack(n: nat)
      requires 1 <= n && n + (if Wide() then 1 else 0) <= |stack|
      modifies this`high, this`low, this`p
      ensures low == stack[n - 1] && high == (if old(Wide()) then stack[n] else old(high))
      ensures p == old(p).(n := p.n, z := p.z)
    {
      SetAccumulator(if Wide() then stack[n] else high, stack[n - 1]);
    }

    method StaStack(n: nat)
      requires 1 <= n && n + (if Wide() then 1 else 0) <= |stack|
      modifies this`stack
      ensures stack == if Wide() then old(stack)[n - 1 := low][n := high] else old(stack)[n - 1 := low]
    {
      stack := stack[n - 1 := low];
      if Wide() {
        stack := stack[n := high];
      }
    }

    method Plb()
      requires |stack| >= 1
      modifies this`stack, this`dataBank, this`p
      ensures stack == old(stack)[1..] && dataBank == old(stack)[0]
      ensures p == old(p).(n := p.n, z := p.z)
    {
      dataBank, stack := stack[0], stack[1..];
      p := p.(n := dataBank >= 0x80, z := dataBank == 0);
    }

    /** A near return address is one short of the next instruction. */
    method Rtl()
      requires |stack| >= 3
      modifies this`stack, this`pc, this`programBank
      ensures stack == old(stack)[3..] && programBank == old(stack)[2]
      ensures pc == (LittleEndian(old(stack)[0], old(stack)[1]) + 1) % 0x1_0000
    {
      pc := (LittleEndian(stack[0], stack[1]) + 1) % 0x1_0000;
      programBank, stack := stack[2], stack[3..];
    }
  }

  /** The bridge variables in low WRAM and the backing copies of the selectors. */
  class Bridge {
    var tmp: byte
    var val: byte
    var slot: byte
    var rawBank: byte
    var codeBank: byte
    var r1: byte
    var r2: byte
    var r3: byte

    constructor ()
      ensures State() == BOOT
    {
      tmp, val := 0, 0;
      slot, rawBank, codeBank, r1, r2, r3 := 0, 0x81, 0xA1, 0x80, 0x9E, 0xFF;
    }

    function State(): Mapper
      reads this
    {
      Mapper(slot, rawBank, codeBank, r1, r2, r3)
    }

    /** $5115: the main bank goes into the low bits of SLOT. */
    method SelectPrimary(cpu: Cpu)
      requires !cpu.Wide()
      modifies this`tmp, this`slot, this`r1, cpu`low, cpu`high, cpu`p
      ensures !cpu.Wide() && cpu.p.d == old(cpu.p.d)
      ensures r1 == old(cpu.low)
      ensures slot as int == (if old(slot) / 16 % 2 == 1 then 16 else 0) + old(cpu.low) / 2 % 16
    {
      hide And, Or;
      r1 := cpu.low;
      FourMiddleBits(cpu.low);
      cpu.AndWith(0x1E);
      cpu.ShiftRight();
      tmp := cpu.low;
      cpu.Load(slot);
      BitFour(cpu.low);
      cpu.AndWith(0x10);
      JoinSlot(cpu.low, tmp);
      cpu.OrWith(tmp);
      slot := cpu.low;
    }

    /** $5116: one of two banks goes into bit 4 of SLOT; no other is admitted. */
    method SelectSecond(cpu: Cpu) returns (admitted: bool)
      requires !cpu.Wide()
      modifies this`val, this`slot, this`r2, cpu`low, cpu`high, cpu`p
      ensures !cpu.Wide() && cpu.p.d == old(cpu.p.d)
      ensures admitted <==> old(cpu.low) % 32 == 30 || old(cpu.low) % 32 == 7
      ensures !admitted ==> slot == old(slot) && r2 == old(r2)
      ensures admitted ==> r2 == old(cpu.low)
      ensures admitted && old(cpu.low) % 32 == 30 ==> slot == old(slot) % 16
      ensures admitted && old(cpu.low) % 32 == 7 ==> slot == old(slot) + (if old(slot) / 16 % 2 == 1 then 0 else 16)
    {
      hide And, Or;
      val := cpu.low;
      FiveLowBits(cpu.low);
      cpu.AndWith(0x1F);
      cpu.Compare(0x1E);
      if cpu.p.z {
        cpu.Load(slot);
        FourLowBits(cpu.low);
        cpu.AndWith(0x0F);
      } else {
        cpu.Compare(0x07);
        if !cpu.p.z {
          return false;
        }
        cpu.Load(slot);
        SetBitFour(cpu.low);
        cpu.OrWith(0x10);
      }
      slot := cpu.low;
      cpu.Load(val);
      r2 := cpu.low;
      admitted := true;
    }

    /** $5117: only the last bank is admitted. */
    method SelectFixed(cpu: Cpu) returns (admitted: bool)
      requires !cpu.Wide()
      modifies this`val, this`r3, cpu`low, cpu`high, cpu`p
      ensures !cpu.Wide() && cpu.p.d == old(cpu.p.d)
      ensures admitted <==> old(cpu.low) % 32 == 31
      ensures r3 == if admitted then old(cpu.low) else old(r3)
    {
      hide And;
      val := cpu.low;
      FiveLowBits(cpu.low);
      cpu.AndWith(0x1F);
      cpu.Compare(0x1F);
      if !cpu.p.z {
        return false;
      }
      cpu.Load(val);
      r3 := cpu.low;
      admitted := true;
    }

    /** Both banks are added up from SLOT, in whatever mode D selects. */
    method AddBanks(cpu: Cpu)
      requires !cpu.Wide()
      modifies this`rawBank, this`codeBank, cpu`low, cpu`high, cpu`p
      ensures !cpu.Wide() && State() == Added(old(State()), old(cpu.p.d))
    {
      hide Sum, Plus;
      cpu.Load(slot);
      cpu.ClearCarry();
      cpu.Adc(0x81);
      rawBank := cpu.low;
      cpu.ClearCarry();
      cpu.Adc(0x20);
      codeBank := cpu.low;
    }

    /** The selector part of the veneer; the accumulator holds the stored byte. */
    method SelectBank(cpu: Cpu, address: word) returns (admitted: bool)
      requires 0x5115 <= address <= 0x5117 && !cpu.Wide()
      modifies this, cpu`low, cpu`high, cpu`p
      ensures !cpu.Wide()
      ensures var did := Executed(old(State()), Store(address, old(cpu.low)), old(cpu.p.d));
        admitted == did.Some? && State() == if admitted then did.value else old(State())
    {
      hide Plus;
      ghost var value := cpu.low;
      if address == 0x5115 {
        SelectPrimary(cpu);
      } else if address == 0x5116 {
        var known := SelectSecond(cpu);
        if !known {
          return false;
        }
      } else {
        var last := SelectFixed(cpu);
        if !last {
          return false;
        }
      }
      AddedIgnoresBanks(State(), Select(old(State()), Store(address, value)).value, cpu.p.d);
      AddBanks(cpu);
      admitted := true;
    }
  }

  lemma AddedIgnoresBanks(m: Mapper, n: Mapper, decimal: bool)
    requires n == m.(rawBank := n.rawBank, codeBank := n.codeBank)
    ensures Added(m, decimal) == Added(n, decimal)
  {}

  /** The register a store opcode writes. */
  function Stored(opcode: byte, a: byte, x: byte, y: byte): byte {
    if opcode == 0x8E then x else if opcode == 0x8C then y else a
  }

  /** Each store opcode stores the register in its name. */
  lemma StoredByName(opcode: byte, a: byte, x: byte, y: byte)
    requires opcode == 0x8D || opcode == 0x8E || opcode == 0x8C
    ensures Lookup(opcode).Op? && Lookup(opcode).mode == Abs
    ensures var name := Lookup(opcode).name;
      (name == STA || name == STX || name == STY)
      && Stored(opcode, a, x, y) == if name == STX then x else if name == STY then y else a
  {}

  /** Moves A and P down one place, so that a bank byte fits under the near
      return address. */
  method MakeRoom(cpu: Cpu, ghost a0: byte, ghost a1: byte, ghost p: byte, ghost r0: byte, ghost r1: byte,
                  ghost caller: seq<byte>)
    requires cpu.stack == [a0, a1, p, r0, r1] + caller && cpu.p.u
    modifies cpu`stack, cpu`high, cpu`low, cpu`p
    ensures cpu.stack == [a0, a1, p, r0, r0, r1] + caller && cpu.p.u
  {
    cpu.Pha();
    cpu.Rep20();
    cpu.LdaStack(2);
    assert cpu.low == a0 && cpu.high == a1;
    cpu.StaStack(1);
    assert cpu.stack == [a0, a1, a1, p, r0, r1] + caller;
    cpu.LdaStack(4);
    assert cpu.low == p && cpu.high == r0;
    cpu.StaStack(3);
    assert cpu.stack == [a0, a1, p, r0, r0, r1] + caller;
    cpu.Sep20();
  }

  /** Turns the near return address into a long one into the new bank. */
  method InsertBank(cpu: Cpu, codeBank: byte, ghost a0: byte, ghost a1: byte, ghost p: byte, ghost r0: byte,
                    ghost r1: byte, ghost caller: seq<byte>)
    requires cpu.stack == [a0, a1, p, r0, r1] + caller && cpu.p.u
    modifies cpu`stack, cpu`high, cpu`low, cpu`p
    ensures cpu.stack == [a0, a1, p, r0, r1, codeBank] + caller && !cpu.p.u
  {
    MakeRoom(cpu, a0, a1, p, r0, r1, caller);
    cpu.LdaStack(6);
    cpu.StaStack(5);
    assert cpu.stack == [a0, a1, p, r0, r1, r1] + caller;
    cpu.Load(codeBank);
    cpu.StaStack(6);
    cpu.Rep20();
  }

  /** Pulls A and P back and leaves for the long return address. */
  method RestoreAndReturn(cpu: Cpu, ghost a0: byte, ghost a1: byte, ghost p: Status, ghost r0: byte, ghost r1: byte,
                          ghost bank: byte, ghost caller: seq<byte>)
    requires cpu.stack == [a0, a1, Pack(p), r0, r1, bank] + caller && !cpu.p.u
    modifies cpu`stack, cpu`high, cpu`low, cpu`p, cpu`pc, cpu`programBank
    ensures cpu.low == a0 && cpu.high == a1 && cpu.p == p && cpu.stack == caller
    ensures cpu.programBank == bank && cpu.pc == (LittleEndian(r0, r1) + 1) % 0x1_0000
  {
    hide Pack, Unpack;
    cpu.Pla();
    assert cpu.stack == [Pack(p), r0, r1, bank] + caller;
    UnpackPack(p);
    cpu.Plp();
    assert cpu.stack == [r0, r1, bank] + caller;
    cpu.Rtl();
  }

  /** Entered by JSR with an 8-bit accumulator: the selector store takes effect and control leaves by RTL, just past the
      call, with every guest register and the caller's stack as they were. It leaves for the newly mapped bank, and the
      bridge is as the store means it, exactly when the guest's D flag is clear. */
  method BankVeneer(cpu: Cpu, bridge: Bridge, opcode: byte, address: word, ghost r0: byte, ghost r1: byte,
                    ghost caller: seq<byte>)
    returns (returned: bool)
    requires 0x5115 <= address <= 0x5117 && (opcode == 0x8D || opcode == 0x8E || opcode == 0x8C)
    requires cpu.stack == [r0, r1] + caller && cpu.p.u
    modifies cpu, bridge
    ensures var store := Store(address, Stored(opcode, old(cpu.low), old(cpu.x), old(cpu.y)));
      var meant := Select(old(bridge.State()), store);
      && returned == meant.Some?
      && (!returned ==> bridge.State() == old(bridge.State()))
      && (returned ==> bridge.State() == Executed(old(bridge.State()), store, old(cpu.p.d)).value
                       && (bridge.State() == meant.value <==> !old(cpu.p.d))
                       && (cpu.programBank == meant.value.codeBank <==> !old(cpu.p.d)))
    ensures returned ==>
      && cpu.high == old(cpu.high) && cpu.low == old(cpu.low)
      && cpu.x == old(cpu.x) && cpu.y == old(cpu.y) && cpu.p == old(cpu.p)
      && cpu.stack == caller
      && cpu.programBank == bridge.codeBank && cpu.dataBank == bridge.rawBank
      && cpu.pc == (LittleEndian(r0, r1) + 1) % 0x1_0000
  {
    hide Pack, Unpack, Select, Executed;
    ghost var a0, a1, p := cpu.low, cpu.high, cpu.p;
    cpu.Php();
    cpu.Rep20();
    cpu.Pha();
    cpu.Sep20();
    assert cpu.stack == [a0, a1, Pack(p), r0, r1] + caller;
    if opcode != 0x8D {
      cpu.Load(if opcode == 0x8E then cpu.x else cpu.y);
    }
    ExecutedExactly(bridge.State(), Store(address, cpu.low), p.d);
    var admitted := bridge.SelectBank(cpu, address);
    if !admitted {
      return false;
    }
    cpu.Load(bridge.rawBank);
    cpu.Pha();
    cpu.Plb();
    assert cpu.stack == [a0, a1, Pack(p), r0, r1] + caller;
    InsertBank(cpu, bridge.codeBank, a0, a1, Pack(p), r0, r1, caller);
    RestoreAndReturn(cpu, a0, a1, p, r0, r1, bridge.codeBank, caller);
    returned := true;
  }
}
