/** The mapper rule in all its modes and cartridge sizes (tools/mmc5_timeline.py:19-35). */
module MapperRule {
  import opened Bytes
  import opened BankImages
  import R = RomImage

  /** The sizes are the powers of two from 4 to 128 banks, and a mask by one less is the remainder. */
  lemma SizesExactly(banks: nat, register: byte)
    ensures IsSize(banks) <==> 4 <= banks <= 128 && R.PowerOfTwo(banks)
    ensures IsSize(banks) ==> Masked(register, banks) == register as nat % banks
  {
    if 4 <= banks <= 128 && R.PowerOfTwo(banks) {
      var k := R.PowerOfTwoIsPower(banks);
      SmallPower(k);
    }
    FewPowers();
  }

  lemma SmallPower(k: nat)
    requires 4 <= R.Power(k) <= 128
    ensures IsSize(R.Power(k))
  {
    FewPowers();
    if k < 2 {
      R.PowerGrows(k, 1);
    } else if k > 7 {
      R.PowerGrows(8, k);
    }
  }

  lemma FewPowers()
    ensures R.Power(1) == 2 && R.Power(2) == 4 && R.Power(3) == 8 && R.Power(4) == 16 && R.Power(5) == 32
    ensures R.Power(6) == 64 && R.Power(7) == 128 && R.Power(8) == 256
    ensures R.PowerOfTwo(4) && R.PowerOfTwo(8) && R.PowerOfTwo(16) && R.PowerOfTwo(32) && R.PowerOfTwo(64) && R.PowerOfTwo(128)
  {
    assert R.Power(4) == 16;
    assert R.Power(6) == 64;
    assert R.PowerOfTwo(4);
    assert R.PowerOfTwo(8);
    assert R.PowerOfTwo(16);
    assert R.PowerOfTwo(32);
    assert R.PowerOfTwo(64);
  }

  /** The bank a register selects: RAM without bit 7, else its remainder by the size. */
  function Selected(register: byte, banks: nat): nat
    requires banks > 0
  {
    if register < 0x80 then 255 else register as nat % banks
  }

  /** The first bank of a pair. */
  function First(bank: nat): nat {
    if bank == 255 || bank % 2 == 0 then bank else bank - 1
  }

  function Second(bank: nat): nat {
    if bank == 255 then 255 else First(bank) + 1
  }

  /** One 32-KiB window in pairs, a pair and two single banks, or four single banks; the last register always names ROM. */
  lemma SlotsExactly(mode: byte, r0: byte, r1: byte, r2: byte, r3: byte, banks: nat)
    ensures SlotsOf(mode, r0, r1, r2, r3, banks).Some? <==> 4 <= banks <= 128 && R.PowerOfTwo(banks) && mode % 4 != 0
    ensures 4 <= banks <= 128 && R.PowerOfTwo(banks) && mode % 4 != 0 ==>
      (var s := SlotsOf(mode, r0, r1, r2, r3, banks).value;
       var last := Selected(if r3 < 0x80 then r3 + 0x80 else r3, banks);
       s == if mode % 4 == 1 then Slots(First(Selected(r1, banks)), Second(Selected(r1, banks)), First(last), Second(last))
            else if mode % 4 == 2 then
              Slots(First(Selected(r1, banks)), Second(Selected(r1, banks)), Selected(r2, banks), last)
            else Slots(Selected(r0, banks), Selected(r1, banks), Selected(r2, banks), last))
  {
    var last: byte := if r3 < 0x80 then r3 + 0x80 else r3;
    SizesExactly(banks, r0);
    SizesExactly(banks, r1);
    SizesExactly(banks, r2);
    SizesExactly(banks, last);
    hide IsSize, Masked, R.PowerOfTwo;
    if 4 <= banks {
      SmallRemainder(last, banks);
      SmallRemainder(r1, banks);
    }
  }

  lemma SmallRemainder(register: byte, banks: nat)
    requires 4 <= banks
    ensures 0 <= register as nat % banks < banks
  {}
}
