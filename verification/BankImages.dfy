/** The 32 pre-mapped images of the program, the selector byte that picks one, and
    the veneer that changes it (tools/build_native.py, tools/direct_calls.py),
    against the mapper rule they stand for (slots in tools/mmc5_timeline.py). */
module BankImages {
  import opened Bytes
  import opened HostArithmetic

  const BANK := 0x2000
  const PRG_SIZE := 0x40000

  // ---- the mapper rule ----

  /** A selector with bit 7 clear names RAM, which the profile does not support. */
  const RAM: nat := 255

  datatype Slots = Slots(b8: nat, bA: nat, bC: nat, bE: nat)

  /** The register under the size mask, a power of two less one. */
  function Masked(register: byte, banks: nat): nat {
    if banks == 4 then register % 4 else if banks == 8 then register % 8
    else if banks == 16 then register % 16 else if banks == 32 then register % 32
    else if banks == 64 then register % 64 else register % 128
  }

  function One(register: byte, banks: nat): nat {
    if register >= 0x80 then Masked(register, banks) else RAM
  }

  function Even(bank: nat): nat {
    bank - bank % 2
  }

  predicate IsSize(banks: nat) {
    banks == 4 || banks == 8 || banks == 16 || banks == 32 || banks == 64 || banks == 128
  }

  /** Physical 8-KiB banks at $8000, $A000, $C000 and $E000 in each PRG mode;
      None for a refused cartridge size or mode 0. */
  function SlotsOf(mode: byte, r0: byte, r1: byte, r2: byte, r3: byte, banks: nat): Option<Slots> {
    if !IsSize(banks) || mode % 4 == 0 then None
    else
      var last: byte := if r3 >= 0x80 then r3 else r3 + 0x80;
      var b1, b3 := One(r1, banks), One(last, banks);
      var low1, high1 := if b1 == RAM then RAM else Even(b1), if b1 == RAM then RAM else Even(b1) + 1;
      if mode % 4 == 1 then Some(Slots(low1, high1, Even(b3), Even(b3) + 1))
      else if mode % 4 == 2 then Some(Slots(low1, high1, One(r2, banks), b3))
      else Some(Slots(One(r0, banks), b1, One(r2, banks), b3))
  }

  function Bank(s: Slots, address: word): nat
    requires address >= 0x8000
  {
    if address < 0xA000 then s.b8 else if address < 0xC000 then s.bA else if address < 0xE000 then s.bC else s.bE
  }

  // ---- the images ----

  /** The C000 bank of an image: bit 4 of its slot chooses between the two observed ones. */
  function CBank(slot: nat): nat {
    if slot / 16 % 2 == 1 then 7 else 30
  }

  function Image(data: seq<byte>, slot: nat): (r: seq<byte>)
    requires |data| == PRG_SIZE
    ensures |r| == 0x8000
  {
    var primary := slot % 16;
    data[primary * 0x4000..(primary + 1) * 0x4000]
    + data[CBank(slot) * BANK..(CBank(slot) + 1) * BANK]
    + data[0x3E000..]
  }

  /** The program offset an image shows at an address. */
  function Shown(slot: nat, address: word): (r: nat)
    requires address >= 0x8000
    ensures r < PRG_SIZE
  {
    if address < 0xC000 then slot % 16 * 0x4000 + address - 0x8000
    else if address < 0xE000 then CBank(slot) * BANK + address - 0xC000
    else 0x3E000 + address - 0xE000
  }

  lemma ImageShows(data: seq<byte>, slot: nat, address: word)
    requires |data| == PRG_SIZE && address >= 0x8000
    ensures Image(data, slot)[address - 0x8000] == data[Shown(slot, address)]
  {
    var primary := slot % 16;
    var low := data[primary * 0x4000..(primary + 1) * 0x4000];
    var middle := data[CBank(slot) * BANK..(CBank(slot) + 1) * BANK];
    assert Image(data, slot) == low + middle + data[0x3E000..];
    if address < 0xC000 {
      assert Image(data, slot)[address - 0x8000] == low[address - 0x8000];
    } else if address < 0xE000 {
      assert Image(data, slot)[address - 0x8000] == middle[address - 0xC000];
    }
  }

  /** Raw images in banks $81-$A0, executable ones in $A1-$C0; the image of slot
      31 keeps the code without veneer calls. */
  predicate Built(images: seq<seq<byte>>, prg: seq<byte>, base: seq<byte>, code: seq<byte>)
    requires |prg| == |base| == |code| == PRG_SIZE
  {
    && |images| == 64
    && (forall slot :: 0 <= slot < 32 ==> images[slot] == Image(prg, slot))
    && (forall k {:trigger images[k]} :: 32 <= k < 64 ==> images[k] == Image(if k != 63 then code else base, k - 32))
  }

  method BuildImages(prg: seq<byte>, base: seq<byte>, code: seq<byte>) returns (images: seq<seq<byte>>)
    requires |prg| == |base| == |code| == PRG_SIZE
    ensures Built(images, prg, base, code)
  {
    images := [];
    for slot := 0 to 32
      invariant |images| == slot
      invariant forall s :: 0 <= s < slot ==> images[s] == Image(prg, s)
    {
      images := images + [Image(prg, slot)];
    }
    for slot := 0 to 32
      invariant |images| == 32 + slot
      invariant forall s :: 0 <= s < 32 ==> images[s] == Image(prg, s)
      invariant forall k {:trigger images[k]} :: 32 <= k < 32 + slot ==>
        images[k] == Image(if k != 63 then code else base, k - 32)
    {
      images := images + [Image(if slot != 31 then code else base, slot)];
    }
  }

  // ---- the selector ----

  /** SLOT, the two bank bytes, and the backing copies of $5115, $5116 and $5117. */
  datatype Mapper = Mapper(slot: byte, rawBank: byte, codeBank: byte, r1: byte, r2: byte, r3: byte)

  datatype Store = Store(address: word, value: byte)

  const BOOT := Mapper(0, 0x81, 0xA1, 0x80, 0x9E, 0xFF)

  function Rebank(m: Mapper): Mapper {
    var raw: byte := (m.slot as int + 0x81) % 0x100;
    m.(rawBank := raw, codeBank := (raw as int + 0x20) % 0x100)
  }

  /** What one selector store is meant to do; None where the veneer jumps to the bank fault. */
  function Select(m: Mapper, s: Store): Option<Mapper> {
    var high := if m.slot / 16 % 2 == 1 then 16 else 0;
    if s.address == 0x5115 then Some(Rebank(m.(r1 := s.value, slot := high + s.value / 2 % 16)))
    else if s.address == 0x5116 then
      if s.value % 32 == 30 then Some(Rebank(m.(slot := m.slot % 16, r2 := s.value)))
      else if s.value % 32 == 7 then Some(Rebank(m.(slot := m.slot - high + 16, r2 := s.value)))
      else None
    else if s.address == 0x5117 then
      if s.value % 32 == 31 then Some(Rebank(m.(r3 := s.value))) else None
    else None
  }

  /** The bank bytes as the host adds them up in the mode of its D flag. */
  function Added(m: Mapper, decimal: bool): Mapper {
    var raw := Plus(m.slot, 0x81, decimal);
    m.(rawBank := raw, codeBank := Plus(raw, 0x20, decimal))
  }

  /** What one selector store does: the veneer does not clear the D flag it is entered with. */
  function Executed(m: Mapper, s: Store, decimal: bool): Option<Mapper> {
    match Select(m, s)
    case None => None
    case Some(n) => Some(Added(n, decimal))
  }

  lemma BinaryIsRebank(m: Mapper)
    ensures Added(m, false) == Rebank(m)
  {}

  /** The first decimal addition, by the digits of the selector byte. */
  lemma DecimalRaw(slot: byte, high: nat, low: nat)
    requires slot as int == 16 * high + low && low < 16
    ensures var sum := slot as int + 0x81 + (if low <= 8 then 0 else 6);
      var raw := if sum >= 0xA0 then sum + 0x60 else sum;
      Plus(slot, 0x81, true) == (if raw < 0x100 then raw else raw - 0x100) && Plus(slot, 0x81, true) % 16 <= 9
  {
    assert slot % 16 == low && slot / 16 == high;
  }

  lemma DecimalCode(raw: byte)
    requires raw % 16 <= 9
    ensures var code := if raw >= 0x80 then raw as int + 0x80 else raw as int + 0x20;
      Plus(raw, 0x20, true) == if code < 0x100 then code else code - 0x100
  {
    assert raw as int == raw / 16 * 16 + raw % 16;
  }

  /** Decimal addition never gives the executable bank, from any selector byte. */
  lemma DecimalCodeBank(slot: byte)
    ensures Plus(Plus(slot, 0x81, true), 0x20, true) != (slot as int + 0xA1) % 0x100
  {
    DecimalRaw(slot, slot / 16, slot % 16);
    DecimalCode(Plus(slot, 0x81, true));
    hide Plus;
  }

  /** It still gives the raw bank while the digits do not carry. */
  lemma DecimalRawBank(slot: byte)
    requires slot < 32
    ensures Plus(slot, 0x81, true) == slot + 0x81 <==> slot % 16 <= 8
  {
    DecimalRaw(slot, slot / 16, slot % 16);
    hide Plus;
  }

  lemma SelectRebanks(m: Mapper, s: Store)
    requires Select(m, s).Some?
    ensures Select(m, s).value == Rebank(Select(m, s).value)
  {}

  /** The veneer does what is meant exactly when D is clear, whatever it finds in memory. */
  lemma ExecutedExactly(m: Mapper, s: Store, decimal: bool)
    ensures Executed(m, s, decimal).Some? <==> Select(m, s).Some?
    ensures Select(m, s).Some? ==>
      (var did, meant := Executed(m, s, decimal).value, Select(m, s).value;
       (did == meant <==> !decimal) && (did.codeBank == meant.codeBank <==> !decimal)
       && did == meant.(rawBank := did.rawBank, codeBank := did.codeBank))
  {
    if Select(m, s).Some? {
      SelectRebanks(m, s);
      hide Select, Plus;
      var meant := Select(m, s).value;
      BinaryIsRebank(meant);
      DecimalCodeBank(meant.slot);
      TwiceAdded(meant.slot);
    }
  }

  lemma TwiceAdded(slot: byte)
    ensures ((slot as int + 0x81) % 0x100 + 0x20) % 0x100 == (slot as int + 0xA1) % 0x100
  {}

  /** A decimal store that leaves the veneer in the wrong bank. */
  lemma DecimalSelectsWrongBank()
    ensures Executed(BOOT, Store(0x5115, 0x80), true) == Some(BOOT.(codeBank := 0x01))
    ensures Select(BOOT, Store(0x5115, 0x80)) == Some(BOOT)
  {}

  /** A selector store, and the D flag it finds. */
  datatype Performed = Performed(store: Store, decimal: bool)

  function Run(m: Mapper, stores: seq<Performed>): Option<Mapper> {
    if stores == [] then Some(m)
    else
      var last := stores[|stores| - 1];
      match Run(m, stores[..|stores| - 1])
      case None => None
      case Some(n) => Executed(n, last.store, last.decimal)
  }

  /** The selector byte is a function of the registers it was built from. */
  ghost predicate Consistent(m: Mapper) {
    && m.slot as int == m.r1 / 2 % 16 + (if m.r2 % 32 == 7 then 16 else 0)
    && (m.r2 % 32 == 7 || m.r2 % 32 == 30)
    && m.r3 % 32 == 31
  }

  /** The mode of the last store; the banks are set up in binary. */
  predicate EndsDecimal(stores: seq<Performed>) {
    stores != [] && stores[|stores| - 1].decimal
  }

  /** Bit 4 of the selector tells the C000 bank, and the low bits the main bank. */
  lemma SlotParts(m: Mapper)
    requires Consistent(m)
    ensures m.slot < 32
    ensures m.slot / 16 % 2 == 1 <==> m.r2 % 32 == 7
    ensures m.slot % 16 == m.r1 / 2 % 16
  {
    var low := m.r1 / 2 % 16;
    assert 0 <= low < 16;
    if m.r2 % 32 == 7 {
      assert m.slot == 16 + low;
    } else {
      assert m.slot == low;
    }
  }

  lemma SelectKeepsConsistent(m: Mapper, s: Store)
    requires Consistent(m) && Select(m, s).Some?
    ensures Consistent(Select(m, s).value)
  {
    SlotParts(m);
    hide Rebank;
    var n := Select(m, s).value;
    RebankKeeps(m.(slot := n.slot, r1 := n.r1, r2 := n.r2, r3 := n.r3));
    if s.address == 0x5115 {
      var low := s.value / 2 % 16;
      RebankKeeps(m.(r1 := s.value, slot := if m.slot / 16 % 2 == 1 then 16 + low else low));
      assert n.slot as int == low + (if m.r2 % 32 == 7 then 16 else 0);
    } else if s.address == 0x5116 {
      RebankKeeps(m.(slot := m.slot % 16, r2 := s.value));
      RebankKeeps(m.(slot := m.slot % 16 + 16, r2 := s.value));
      assert m.slot - (if m.slot / 16 % 2 == 1 then 16 else 0) == m.slot % 16;
      assert n.slot as int == m.slot % 16 + (if s.value % 32 == 7 then 16 else 0);
    } else {
      RebankKeeps(m.(r3 := s.value));
    }
  }

  lemma RebankKeeps(m: Mapper)
    ensures Rebank(m) == m.(rawBank := Rebank(m).rawBank, codeBank := Rebank(m).codeBank)
  {}

  /** After any admitted stores the selector byte follows the registers. The executable bank belongs to it exactly when
      the last store was made in binary, the raw bank also while the low digit did not carry. */
  lemma {:induction false} RunIsConsistent(stores: seq<Performed>)
    requires Run(BOOT, stores).Some?
    ensures var m := Run(BOOT, stores).value;
      Consistent(m) && m.slot < 32
      && (m.codeBank == m.slot + 0xA1 <==> !EndsDecimal(stores))
      && (m.rawBank == m.slot + 0x81 <==> !EndsDecimal(stores) || m.slot % 16 <= 8)
    decreases |stores|
  {
    var m := Run(BOOT, stores).value;
    if stores != [] {
      var n, last := Run(BOOT, stores[..|stores| - 1]).value, stores[|stores| - 1];
      RunIsConsistent(stores[..|stores| - 1]);
      SelectKeepsConsistent(n, last.store);
      ExecutedExactly(n, last.store, last.decimal);
      SlotParts(Select(n, last.store).value);
      var meant := Select(n, last.store).value;
      BanksOfStore(n, last.store, last.decimal);
      hide Select, Plus, Executed;
    }
  }

  lemma BanksOfStore(n: Mapper, s: Store, decimal: bool)
    requires Select(n, s).Some? && Select(n, s).value.slot < 32
    ensures var m := Executed(n, s, decimal).value;
      && m.slot == Select(n, s).value.slot
      && (m.codeBank == m.slot + 0xA1 <==> !decimal)
      && (m.rawBank == m.slot + 0x81 <==> !decimal || m.slot % 16 <= 8)
  {
    hide Select, Plus;
    var meant := Select(n, s).value;
    DecimalCodeBank(meant.slot);
    DecimalRawBank(meant.slot);
    BinaryIsRebank(meant);
  }

  // ---- the images follow the rule ----

  /** The rule in the supported mode and size, for a fixed last bank. */
  lemma NamedSlots(r0: byte, r1: byte, r2: byte, r3: byte)
    requires r3 % 32 == 31
    ensures SlotsOf(2, r0, r1, r2, r3, 32)
      == Some(Slots(if r1 >= 0x80 then 2 * (r1 / 2 % 16) else RAM, if r1 >= 0x80 then 2 * (r1 / 2 % 16) + 1 else RAM,
                    if r2 >= 0x80 then r2 % 32 else RAM, 31))
  {
    var b := r1 % 32;
    assert Even(b) == 2 * (r1 / 2 % 16);
    assert b < 32;
  }

  /** An image is four 8-KiB banks side by side. */
  lemma ShownInBank(slot: nat, address: word)
    requires address >= 0x8000
    ensures Shown(slot, address) == address % BANK + BANK *
      (if address < 0xA000 then 2 * (slot % 16) else if address < 0xC000 then 2 * (slot % 16) + 1
       else if address < 0xE000 then CBank(slot) else 31)
  {
    if address < 0xA000 {
      assert address % BANK == address - 0x8000;
    } else if address < 0xC000 {
      assert address % BANK == address - 0xA000;
    } else if address < 0xE000 {
      assert address % BANK == address - 0xC000;
    } else {
      assert address % BANK == address - 0xE000;
    }
  }

  /** After any admitted stores, the image of the selector byte shows, at every address, the bank that the mapper rule
      names in mode 2, exactly where the rule names a program bank. */
  lemma ShownFollowsMapper(stores: seq<Performed>, r0: byte, address: word)
    requires Run(BOOT, stores).Some? && address >= 0x8000
    ensures var m := Run(BOOT, stores).value;
      var named := SlotsOf(2, r0, m.r1, m.r2, m.r3, 32);
      && named.Some?
      && m.slot < 32
      && (Bank(named.value, address) != RAM <==>
            Shown(m.slot, address) == Bank(named.value, address) * BANK + address % BANK)
  {
    RunIsConsistent(stores);
    var m := Run(BOOT, stores).value;
    SlotParts(m);
    NamedSlots(r0, m.r1, m.r2, m.r3);
    ShownInBank(m.slot, address);
    hide Run, SlotsOf, Shown;
  }

  /** After any admitted stores of which the last was made in binary, a read through the raw bank gives the program byte
      that the mapper rule names, wherever it names one, and execution through the code bank gives the translated byte
      at the same offset; in the image of slot 31, the byte without calls. */
  lemma ImageFollowsMapper(stores: seq<Performed>, r0: byte, address: word, images: seq<seq<byte>>, prg: seq<byte>,
                           base: seq<byte>, code: seq<byte>)
    requires |prg| == |base| == |code| == PRG_SIZE && Built(images, prg, base, code)
    requires Run(BOOT, stores).Some? && !EndsDecimal(stores) && address >= 0x8000
    ensures var m := Run(BOOT, stores).value;
      var named := SlotsOf(2, r0, m.r1, m.r2, m.r3, 32);
      && named.Some? && 0x81 <= m.rawBank <= 0xA0 && 0xA1 <= m.codeBank <= 0xC0
      && var bank := Bank(named.value, address);
        var at := bank * BANK + address % BANK;
        bank != RAM ==>
          && at < PRG_SIZE
          && images[m.rawBank - 0x81][address - 0x8000] == prg[at]
          && images[m.codeBank - 0x81][address - 0x8000] == (if m.slot == 31 then base else code)[at]
  {
    RunIsConsistent(stores);
    ShownFollowsMapper(stores, r0, address);
    hide Run, SlotsOf, Shown, Image, Consistent, Bank;
    var m := Run(BOOT, stores).value;
    ImageShows(prg, m.slot, address);
    ImageShows(if m.slot == 31 then base else code, m.slot, address);
    assert images[m.slot] == Image(prg, m.slot);
    assert images[m.slot + 32] == Image(if m.slot == 31 then base else code, m.slot);
  }

  lemma NamedRanges(r0: byte, r1: byte, r2: byte, r3: byte)
    requires r3 % 32 == 31
    ensures SlotsOf(2, r0, r1, r2, r3, 32).Some?
    ensures var s := SlotsOf(2, r0, r1, r2, r3, 32).value;
      && (if r1 >= 0x80 then s.b8 < 32 && s.bA < 32 else s.b8 == RAM)
      && (if r2 >= 0x80 then s.bC < 32 else s.bC == RAM)
      && s.bE == 31
  {
    NamedSlots(r0, r1, r2, r3);
    hide SlotsOf;
    assert 0 <= r1 / 2 % 16 < 16 && 0 <= r2 % 32 < 32;
  }

  /** No bank is RAM exactly when the first and the third are not, if the second goes with the first. */
  lemma NoRam(s: Slots)
    requires (s.b8 == RAM <==> s.bA == RAM) && s.bE != RAM
    ensures (forall address: word :: address >= 0x8000 ==> Bank(s, address) != RAM) <==> s.b8 != RAM && s.bC != RAM
  {
    assert Bank(s, 0x8000) == s.b8 && Bank(s, 0xC000) == s.bC;
  }

  /** The rule names a program bank everywhere exactly when the two live selectors
      were last written with bit 7 set: the veneer itself ignores that bit. */
  lemma ProgramEverywhere(stores: seq<Performed>, r0: byte)
    requires Run(BOOT, stores).Some?
    ensures var m := Run(BOOT, stores).value;
      var named := SlotsOf(2, r0, m.r1, m.r2, m.r3, 32);
      named.Some? && ((forall address: word :: address >= 0x8000 ==> Bank(named.value, address) != RAM)
                      <==> m.r1 >= 0x80 && m.r2 >= 0x80)
  {
    RunIsConsistent(stores);
    var m := Run(BOOT, stores).value;
    NamedRanges(r0, m.r1, m.r2, m.r3);
    NamedPair(r0, m.r1, m.r2, m.r3);
    NoRam(SlotsOf(2, r0, m.r1, m.r2, m.r3, 32).value);
    hide SlotsOf, Run, Bank;
  }

  lemma NamedPair(r0: byte, r1: byte, r2: byte, r3: byte)
    requires r3 % 32 == 31
    ensures SlotsOf(2, r0, r1, r2, r3, 32).Some?
    ensures var s := SlotsOf(2, r0, r1, r2, r3, 32).value; s.b8 == RAM <==> s.bA == RAM
  {
    NamedSlots(r0, r1, r2, r3);
    hide SlotsOf;
  }

  /** A store with bit 7 clear that the veneer admits although the rule maps RAM. */
  lemma AdmitsRamSelection()
    ensures var m := Run(BOOT, [Performed(Store(0x5115, 0x02), false)]);
      m.Some? && SlotsOf(2, 0, m.value.r1, m.value.r2, m.value.r3, 32) == Some(Slots(RAM, RAM, 30, 31))
  {
    assert [Performed(Store(0x5115, 0x02), false)][..0] == [];
  }
}
