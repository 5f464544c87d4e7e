/** The 8-bit arithmetic of the 65C816 that the bank veneer uses. */
module HostArithmetic {
  import opened Bytes

  // ---- bits ----

  function And(a: byte, mask: byte): (r: byte)
    ensures r <= a && r <= mask
  {
    if mask == 0 then 0 else 2 * And(a / 2, mask / 2) + (if a % 2 == 1 && mask % 2 == 1 then 1 else 0)
  }

  /** The bits of a sum are those of both summands, less the common ones. */
  function Or(a: byte, b: byte): (r: byte)
    ensures r >= a && r >= b
  {
    OrFits(a, b);
    a + b - And(a, b)
  }

  lemma {:induction false} OrFits(a: byte, b: byte)
    ensures a + b - And(a, b) < 0x100
  {
    OrBelow(a, b, 8);
    assert Places(8) == 0x100 by { EightPlaces(); }
  }

  function Places(n: nat): nat {
    if n == 0 then 1 else 2 * Places(n - 1)
  }

  lemma EightPlaces()
    ensures Places(4) == 16 && Places(8) == 0x100
  {
    assert Places(4) == 16;
  }

  lemma {:induction false} OrBelow(a: byte, b: byte, n: nat)
    requires a < Places(n) && b < Places(n)
    ensures a + b - And(a, b) < Places(n)
  {
    if b > 0 && n > 0 {
      OrBelow(a / 2, b / 2, n - 1);
    }
  }

  lemma OneLowBit(a: byte)
    ensures And(a, 0x01) == a % 2
  {
    hide And;
    AndStep(a, 0x01);
    NoBits(a / 2);
  }

  lemma TwoLowBits(a: byte)
    ensures And(a, 0x03) == a % 4
  {
    hide And;
    AndStep(a, 0x03);
    OneLowBit(a / 2);
    assert a % 4 == 2 * (a / 2 % 2) + a % 2;
  }

  lemma ThreeLowBits(a: byte)
    ensures And(a, 0x07) == a % 8
  {
    hide And;
    AndStep(a, 0x07);
    TwoLowBits(a / 2);
    assert a % 8 == 2 * (a / 2 % 4) + a % 2;
  }

  /** Masks of low bits keep the remainder. */
  lemma FourLowBits(a: byte)
    ensures And(a, 0x0F) == a % 16
  {
    hide And;
    AndStep(a, 0x0F);
    ThreeLowBits(a / 2);
    assert a % 16 == 2 * (a / 2 % 8) + a % 2;
  }

  lemma FiveLowBits(a: byte)
    ensures And(a, 0x1F) == a % 32
  {
    hide And;
    AndStep(a, 0x1F);
    FourLowBits(a / 2);
    assert a % 32 == 2 * (a / 2 % 16) + a % 2;
  }

  lemma FourMiddleBits(a: byte)
    ensures And(a, 0x1E) == a / 2 % 16 * 2
  {
    hide And;
    AndStep(a, 0x1E);
    FourLowBits(a / 2);
  }

  lemma AndStep(a: byte, mask: byte)
    ensures And(a, mask) == 2 * And(a / 2, mask / 2) + (if a % 2 == 1 && mask % 2 == 1 then 1 else 0)
  {
    if mask == 0 {
      assert And(a / 2, 0) == 0;
    }
  }

  lemma BitFour(a: byte)
    ensures And(a, 0x10) == if a / 16 % 2 == 1 then 16 else 0
  {
    hide And;
    OneLowBit(a / 16);
    AndStep(a, 0x10);
    AndStep(a / 2, 0x08);
    AndStep(a / 4, 0x04);
    AndStep(a / 8, 0x02);
  }

  /** Bit 4 and the four bits below it have nothing in common. */
  lemma JoinSlot(high: byte, low: byte)
    requires (high == 0 || high == 16) && low < 16
    ensures Or(high, low) == high + low
  {
    NoCommonBits(low);
    assert And(0, low) == 0;
  }

  lemma NoCommonBits(low: byte)
    requires low < 16
    ensures And(16, low) == 0
  {
    hide And;
    AndStep(16, low);
    AndStep(8, low / 2);
    AndStep(4, low / 4);
    AndStep(2, low / 8);
    assert low / 2 / 2 == low / 4 && low / 4 / 2 == low / 8 && low / 8 / 2 == 0;
    NoBits(1);
  }

  lemma NoBits(a: byte)
    ensures And(a, 0) == 0
  {}

  /** Setting bit 4. */
  lemma SetBitFour(a: byte)
    ensures Or(a, 0x10) == if a / 16 % 2 == 1 then a else a + 16
  {
    BitFour(a);
    hide And;
  }

  // ---- addition ----

  function BinarySum(a: byte, b: byte): nat {
    a as nat + b
  }

  /** Each decimal digit past nine carries, valid or not. */
  function DecimalSum(a: byte, b: byte): nat {
    var ones := a % 16 + b % 16;
    var low := if ones >= 10 then (ones + 6) % 16 + 16 else ones;
    var sum := a / 16 * 16 + b / 16 * 16 + low;
    if sum >= 0xA0 then sum + 0x60 else sum
  }

  /** An addition with the carry clear, in the mode that the D flag selects. */
  function Sum(a: byte, b: byte, decimal: bool): nat {
    if decimal then DecimalSum(a, b) else BinarySum(a, b)
  }

  function Plus(a: byte, b: byte, decimal: bool): byte {
    Sum(a, b, decimal) % 0x100
  }
}
