/** The processor status register, as eight flags and as the byte that is pushed. */
module StatusRegister {
  import opened Bytes

  /** Bits 7 to 0. Bits 5 and 4 are the unused and break bits of a 6502, and the
      8-bit accumulator and index selects of a 65C816 in native mode. */
  datatype Status = Status(n: bool, v: bool, u: bool, b: bool, d: bool, i: bool, z: bool, c: bool)

  function Weight(flag: bool, w: nat): nat {
    if flag then w else 0
  }

  function PackNibble(b3: bool, b2: bool, b1: bool, b0: bool): (r: nat)
    ensures r < 16
  {
    Weight(b3, 8) + Weight(b2, 4) + Weight(b1, 2) + Weight(b0, 1)
  }

  function Pack(p: Status): byte {
    16 * PackNibble(p.n, p.v, p.u, p.b) + PackNibble(p.d, p.i, p.z, p.c)
  }

  /** What is left of x below a bit of weight w. */
  function Below(x: nat, w: nat): nat {
    if x >= w then x - w else x
  }

  function UnpackNibble(x: nat): (bool, bool, bool, bool) {
    var x2 := Below(x, 8);
    var x1 := Below(x2, 4);
    var x0 := Below(x1, 2);
    (x >= 8, x2 >= 4, x1 >= 2, x0 >= 1)
  }

  function Unpack(p: byte): Status {
    var (n, v, u, b) := UnpackNibble(p / 16);
    var (d, i, z, c) := UnpackNibble(p % 16);
    Status(n, v, u, b, d, i, z, c)
  }

  lemma NibbleRoundTrip(x: nat)
    requires x < 16
    ensures var (b3, b2, b1, b0) := UnpackNibble(x); PackNibble(b3, b2, b1, b0) == x
  {
  }

  lemma NibbleKept(b3: bool, b2: bool, b1: bool, b0: bool)
    ensures UnpackNibble(PackNibble(b3, b2, b1, b0)) == (b3, b2, b1, b0)
  {
  }

  /** Pushing and pulling the status loses nothing. */
  lemma UnpackPack(p: Status)
    ensures Unpack(Pack(p)) == p
  {
    hide PackNibble, UnpackNibble;
    NibbleKept(p.n, p.v, p.u, p.b);
    NibbleKept(p.d, p.i, p.z, p.c);
    assert Pack(p) / 16 == PackNibble(p.n, p.v, p.u, p.b);
    assert Pack(p) % 16 == PackNibble(p.d, p.i, p.z, p.c);
  }

  lemma PackUnpack(p: byte)
    ensures Pack(Unpack(p)) == p
  {
    NibbleRoundTrip(p / 16);
    NibbleRoundTrip(p % 16);
  }

  // ---- the split between guest and host flags ----

  /** What the host loads: the guest's N, V, Z and C, with narrow registers, interrupts off and binary arithmetic. */
  function LoadGuest(p: byte): byte {
    p / 64 * 64 + p % 4 + 0x34
  }

  /** What the guest keeps afterwards: the host's N, V, Z and C with its own other bits. */
  function SaveGuest(p: byte, host: byte): byte {
    p / 4 % 16 * 4 + (host / 64 * 64 + host % 4)
  }

  function High(p: Status): nat {
    Weight(p.n, 2) + Weight(p.v, 1)
  }

  function Middle(p: Status): nat {
    Weight(p.u, 8) + Weight(p.b, 4) + Weight(p.d, 2) + Weight(p.i, 1)
  }

  function Lower(p: Status): nat {
    Weight(p.z, 2) + Weight(p.c, 1)
  }

  lemma Division(high: nat, middle: nat, low: nat)
    requires high < 4 && middle < 16 && low < 4
    ensures var x := 64 * high + 4 * middle + low; x / 64 == high && x / 4 % 16 == middle && x % 4 == low
  {}

  lemma PackParts(p: Status)
    ensures Pack(p) == 64 * High(p) + 4 * Middle(p) + Lower(p)
    ensures Pack(p) / 64 == High(p) && Pack(p) / 4 % 16 == Middle(p) && Pack(p) % 4 == Lower(p)
  {
    PackSum(p);
    PartBounds(p);
    Division(High(p), Middle(p), Lower(p));
  }

  lemma PackSum(p: Status)
    ensures Pack(p) == 64 * High(p) + 4 * Middle(p) + Lower(p)
  {}

  lemma PartBounds(p: Status)
    ensures High(p) < 4 && Middle(p) < 16 && Lower(p) < 4
  {}

  lemma LoadedParts(p: Status)
    ensures LoadGuest(Pack(p)) == 64 * High(p) + 4 * 0xD + Lower(p)
  {
    hide Pack, High, Middle, Lower;
    PackParts(p);
  }

  lemma SavedParts(p: Status, host: Status)
    ensures SaveGuest(Pack(p), Pack(host)) == 64 * High(host) + 4 * Middle(p) + Lower(host)
  {
    hide Pack, High, Middle, Lower;
    PackParts(p);
    PackParts(host);
  }

  /** The host sees exactly the four arithmetic flags, and only those come back. */
  lemma FlagsSplit(p: Status, host: Status)
    ensures LoadGuest(Pack(p)) == Pack(Status(p.n, p.v, true, true, false, true, p.z, p.c))
    ensures SaveGuest(Pack(p), Pack(host)) == Pack(p.(n := host.n, v := host.v, z := host.z, c := host.c))
  {
    hide Pack, LoadGuest, SaveGuest;
    LoadedParts(p);
    SavedParts(p, host);
    PackSum(Status(p.n, p.v, true, true, false, true, p.z, p.c));
    PackSum(p.(n := host.n, v := host.v, z := host.z, c := host.c));
  }

  /** An instruction that leaves the host's flags alone leaves the guest's status alone. */
  lemma LoadThenSave(p: byte)
    ensures SaveGuest(p, LoadGuest(p)) == p
  {
    Division(p / 64, p / 4 % 16, p % 4);
    Division(p / 64, 0xD, p % 4);
    assert LoadGuest(p) == 64 * (p / 64) + 4 * 0xD + p % 4;
  }

  // ---- single bits ----

  /** The bit of the given weight. */
  predicate Bit(p: byte, weight: nat)
    requires weight > 0
  {
    p / weight % 2 == 1
  }

  lemma HighBits(high: nat, rest: nat)
    requires high < 4 && rest < 0x40
    ensures (64 * high + rest) / 0x80 % 2 == high / 2 && (64 * high + rest) / 0x40 % 2 == high % 2
  {
    assert (64 * high + rest) / 0x40 == high;
  }

  lemma LowBits(above: nat, low: nat)
    requires above < 0x40 && low < 4
    ensures (4 * above + low) / 2 % 2 == low / 2 && (4 * above + low) / 1 % 2 == low % 2
  {
    assert (4 * above + low) / 2 == 2 * above + low / 2;
  }

  /** Where the four arithmetic flags lie in the status byte. */
  lemma ArithmeticBits(p: Status)
    ensures Bit(Pack(p), 0x80) == p.n && Bit(Pack(p), 0x40) == p.v && Bit(Pack(p), 0x02) == p.z && Bit(Pack(p), 0x01) == p.c
  {
    hide Pack;
    PackSum(p);
    PartBounds(p);
    HighBits(High(p), 4 * Middle(p) + Lower(p));
    LowBits(16 * High(p) + Middle(p), Lower(p));
  }
}
