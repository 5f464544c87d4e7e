/** Padding, sizing and checksumming a cartridge image, and the validator that must accept it
  * (tools/build_viewer.py:29-58). */
module RomImage {
  import opened Bytes

  const BANK := 0x8000
  const LIMIT := 0x40_0000
  const MAP_MODE := 0x7FD5
  const SIZE_FIELD := 0x7FD7
  const COMPLEMENT := 0x7FDC
  const RESET := 0x7FFC

  datatype Error = WrongCore | TooLarge | NotPowerOfTwo | ChecksumMismatch | BadHeader | WrongSizeField

  // ---- powers of two ----

  function Power(k: nat): (p: nat)
    ensures p > 0
  {
    if k == 0 then 1 else 2 * Power(k - 1)
  }

  function BitLength(n: nat): nat {
    if n == 0 then 0 else 1 + BitLength(n / 2)
  }

  predicate PowerOfTwo(n: nat) {
    n == 1 || (n > 1 && n % 2 == 0 && PowerOfTwo(n / 2))
  }

  lemma {:induction false} PowerIsPower(k: nat)
    ensures PowerOfTwo(Power(k)) && BitLength(Power(k)) == k + 1
  {
    if k > 0 {
      PowerIsPower(k - 1);
      assert Power(k) / 2 == Power(k - 1);
    }
  }

  /** A bit length is the least exponent whose power exceeds the number. */
  lemma {:induction false} BitLengthBounds(n: nat)
    ensures n < Power(BitLength(n)) && (n > 0 ==> Power(BitLength(n)) <= 2 * n)
  {
    if n > 0 {
      BitLengthBounds(n / 2);
    }
  }

  lemma {:induction false} PowerGrows(j: nat, k: nat)
    requires j <= k
    ensures Power(j) <= Power(k) && (j < k ==> Power(j) < Power(k))
    decreases k
  {
    if j < k {
      PowerGrows(j, k - 1);
    }
  }

  // ---- byte sums ----

  function Sum(s: seq<byte>): nat {
    if s == [] then 0 else Sum(s[..|s| - 1]) + s[|s| - 1]
  }

  lemma {:induction false} SumOfUpdate(s: seq<byte>, i: nat, b: byte)
    requires i < |s|
    ensures Sum(s[i := b]) == Sum(s) - s[i] + b
    decreases |s|
  {
    var n := |s| - 1;
    if i < n {
      SumOfUpdate(s[..n], i, b);
      assert s[i := b][..n] == s[..n][i := b];
    } else {
      assert s[i := b][..n] == s[..n];
    }
  }

  /** The sum of a file is that of its parts. */
  lemma {:induction false} SumAdds(a: seq<byte>, b: seq<byte>)
    ensures Sum(a + b) == Sum(a) + Sum(b) && (|a| == 1 ==> Sum(a) == a[0])
    decreases |b|
  {
    if b == [] {
      assert a + b == a;
    } else {
      assert (a + b)[..|a + b| - 1] == a + b[..|b| - 1];
      SumAdds(a, b[..|b| - 1]);
    }
  }

  /** The buffer with two little-endian words at the checksum's place. */
  function WithWords(s: seq<byte>, complement: word, checksum: word): (r: seq<byte>)
    requires |s| >= BANK
    ensures |r| == |s|
  {
    s[COMPLEMENT := complement % 0x100][COMPLEMENT + 1 := complement / 0x100]
     [COMPLEMENT + 2 := checksum % 0x100][COMPLEMENT + 3 := checksum / 0x100]
  }

  function Complement(checksum: word): word {
    0xFFFF - checksum
  }

  lemma SumOfWords(s: seq<byte>, complement: word, checksum: word)
    requires |s| >= BANK
    ensures Sum(WithWords(s, complement, checksum))
      == Sum(s) - s[COMPLEMENT] - s[COMPLEMENT + 1] - s[COMPLEMENT + 2] - s[COMPLEMENT + 3]
         + complement % 0x100 + complement / 0x100 + checksum % 0x100 + checksum / 0x100
  {
    hide Sum;
    var a := s[COMPLEMENT := complement % 0x100];
    var b := a[COMPLEMENT + 1 := complement / 0x100];
    var c := b[COMPLEMENT + 2 := checksum % 0x100];
    SumOfUpdate(s, COMPLEMENT, complement % 0x100);
    SumOfUpdate(a, COMPLEMENT + 1, complement / 0x100);
    SumOfUpdate(b, COMPLEMENT + 2, checksum % 0x100);
    SumOfUpdate(c, COMPLEMENT + 3, checksum / 0x100);
  }

  lemma ComplementBytes(checksum: word)
    ensures Complement(checksum) % 0x100 + checksum % 0x100 == 0xFF
    ensures Complement(checksum) / 0x100 + checksum / 0x100 == 0xFF
  {}

  /** A word with its complement adds the same bytes whatever the word. */
  lemma ChecksumStands(s: seq<byte>, checksum: word)
    requires |s| >= BANK
    ensures Sum(WithWords(s, Complement(checksum), checksum)) == Sum(WithWords(s, 0xFFFF, 0))
  {
    hide Sum, WithWords;
    SumOfWords(s, Complement(checksum), checksum);
    SumOfWords(s, 0xFFFF, 0);
    ComplementBytes(checksum);
  }

  // ---- building and validating ----

  function Exponent(length: nat): nat
    requires length > 0
  {
    if BitLength(length - 1) > 16 then BitLength(length - 1) else 16
  }

  /** The least power of two that holds the image, and never less than 64 KiB. */
  lemma SizeIsLeast(length: nat)
    requires length > 0
    ensures var size := Power(Exponent(length));
      Exponent(length) >= 16 && length <= size && 0x1_0000 <= size && (size > 0x1_0000 ==> size < 2 * length)
  {
    BitLengthBounds(length - 1);
    PowerGrows(16, Exponent(length));
    PowerGrows(BitLength(length - 1), Exponent(length));
    assert Power(16) == 0x1_0000 by { Power16(); }
  }

  lemma Power16()
    ensures Power(4) == 0x10 && Power(8) == 0x100 && Power(12) == 0x1000 && Power(16) == 0x1_0000
  {
    assert Power(4) == 0x10;
    assert Power(8) == 0x100;
    assert Power(12) == 0x1000;
  }

  lemma Power22()
    ensures Power(10) == 1024 && Power(22) == LIMIT
  {
    Power16();
    assert Power(10) == 1024;
    assert Power(19) == 8 * Power(16);
    assert Power(22) == 8 * Power(19);
  }

  /** Fill, size field and checksum. */
  method FinalizeRom(core: seq<byte>, converted: seq<byte>) returns (r: Result<seq<byte>, Error>)
    ensures r.Err? ==> r.error == if |core| != BANK then WrongCore else TooLarge
    ensures r.Err? <==> |core| != BANK || Power(Exponent(|core| + |converted|)) > LIMIT
    ensures r.Ok? ==> Final(r.value, core, converted)
    ensures r.Ok? ==> |core + converted| <= |r.value|
    ensures r.Ok? ==> forall i {:trigger r.value[i]} :: 0 <= i < |r.value| && i != 0x7FD7 && !(0x7FDC <= i <= 0x7FDF) ==>
      r.value[i] == if i < |core + converted| then (core + converted)[i] else 0xFF
  {
    hide Sum, Power, Exponent, WithWords;
    if |core| != BANK {
      return Err(WrongCore);
    }
    var exponent := Exponent(|core| + |converted|);
    var size := Power(exponent);
    if size > LIMIT {
      return Err(TooLarge);
    }
    SizeIsLeast(|core| + |converted|);
    ExponentIsSmall(exponent);
    var image := core + converted;
    image := image + seq(size - |image|, _ => 0xFF);
    image := image[SIZE_FIELD := exponent - 10];
    ghost var sized := image;
    image := WithWords(image, 0xFFFF, 0);
    var checksum := Sum(image) % 0x1_0000;
    image := WithWords(image, Complement(checksum), checksum);
    ChecksumStands(sized, checksum);
    WordsTwice(sized, 0xFFFF, 0, Complement(checksum), checksum);
    KeepsTheRest(sized, core, converted, exponent, checksum);
    r := Ok(image);
  }

  lemma ExponentIsSmall(exponent: nat)
    requires Power(exponent) <= LIMIT
    ensures exponent <= 22
  {
    if exponent > 22 {
      Power22();
      PowerGrows(22, exponent);
    }
  }

  lemma WordsTwice(s: seq<byte>, a: word, b: word, c: word, d: word)
    requires |s| >= BANK
    ensures WithWords(WithWords(s, a, b), c, d) == WithWords(s, c, d)
  {
    var x, y := WithWords(WithWords(s, a, b), c, d), WithWords(s, c, d);
    assert |x| == |y| && forall i :: 0 <= i < |x| ==> x[i] == y[i];
  }

  predicate HeaderByte(i: nat) {
    i == 0x7FD7 || 0x7FDC <= i < 0x7FE0
  }

  /** The finished image: the input outside the header fields, filled up to its size, with the size and checksum. */
  predicate Final(image: seq<byte>, core: seq<byte>, converted: seq<byte>) {
    var input := core + converted;
    |input| >= 0x8000
    && |image| == Power(Exponent(|input|)) && |image| <= LIMIT && |image| >= |input|
    && (forall i {:trigger image[i]} :: 0 <= i < |image| && !HeaderByte(i) ==> image[i] == if i < |input| then input[i] else 0xFF)
    && Power(image[0x7FD7] as nat + 10) == |image|
    && var checksum := LittleEndian(image[0x7FDE], image[0x7FDF]);
      checksum == Sum(image) % 0x1_0000 && LittleEndian(image[0x7FDC], image[0x7FDD]) == 0xFFFF - checksum
  }

  lemma KeepsTheRest(sized: seq<byte>, core: seq<byte>, converted: seq<byte>, exponent: nat, checksum: word)
    requires var input := core + converted;
      |input| >= BANK && exponent == Exponent(|input|) && 16 <= exponent <= 22 && |sized| == Power(exponent) <= LIMIT
      && |input| <= |sized|
      && sized == (input + seq(Power(exponent) - |input|, _ => 0xFF))[SIZE_FIELD := exponent - 10]
    requires checksum == Sum(WithWords(sized, Complement(checksum), checksum)) % 0x1_0000
    ensures Final(WithWords(sized, Complement(checksum), checksum), core, converted)
  {
    hide Sum, Power, Exponent;
    var image := WithWords(sized, Complement(checksum), checksum);
    assert LittleEndian(checksum % 0x100, checksum / 0x100) == checksum;
    assert LittleEndian(Complement(checksum) % 0x100, Complement(checksum) / 0x100) == Complement(checksum);
  }

  /** The validator; Ok holds the reset vector. */
  function ValidateSfc(raw: seq<byte>): Result<word, Error> {
    if |raw| < BANK || !PowerOfTwo(|raw|) then Err(NotPowerOfTwo)
    else
      var complement := LittleEndian(raw[COMPLEMENT], raw[COMPLEMENT + 1]);
      var checksum := LittleEndian(raw[COMPLEMENT + 2], raw[COMPLEMENT + 3]);
      var reset := LittleEndian(raw[RESET], raw[RESET + 1]);
      if complement != Complement(checksum) || Sum(raw) % 0x1_0000 != checksum then Err(ChecksumMismatch)
      else if (raw[MAP_MODE] != 0x20 && raw[MAP_MODE] != 0x30) || reset < 0x8000 then Err(BadHeader)
      else if 1024 * Power(raw[SIZE_FIELD]) != |raw| then Err(WrongSizeField)
      else Ok(reset)
  }

  lemma {:induction false} PowersMultiply(k: nat)
    ensures Power(k + 10) == 1024 * Power(k)
  {
    if k == 0 {
      Power22();
    } else {
      PowersMultiply(k - 1);
      assert k - 1 + 10 == k + 10 - 1;
    }
  }

  lemma {:induction false} PowerOfTwoIsPower(n: nat) returns (k: nat)
    requires PowerOfTwo(n)
    ensures Power(k) == n
  {
    if n == 1 {
      k := 0;
    } else {
      k := PowerOfTwoIsPower(n / 2);
      k := k + 1;
    }
  }

  /** What the validator accepts of any file: a size that its header names, a true checksum with its complement, a LoROM
    * map mode and a reset vector in the cartridge. */
  lemma ValidatesExactly(raw: seq<byte>, reset: word)
    ensures ValidateSfc(raw) == Ok(reset)
      <==> (&& |raw| >= 0x8000 && |raw| == 0x400 * Power(raw[0x7FD7])
            && LittleEndian(raw[0x7FDC], raw[0x7FDD]) + LittleEndian(raw[0x7FDE], raw[0x7FDF]) == 0xFFFF
            && Sum(raw) % 0x1_0000 == LittleEndian(raw[0x7FDE], raw[0x7FDF])
            && (raw[0x7FD5] == 0x20 || raw[0x7FD5] == 0x30)
            && reset == LittleEndian(raw[0x7FFC], raw[0x7FFD]) && reset >= 0x8000)
  {
    hide Sum, Power, PowerOfTwo;
    if |raw| >= 0x8000 && |raw| == 0x400 * Power(raw[0x7FD7]) {
      PowersMultiply(raw[0x7FD7]);
      PowerIsPower(raw[0x7FD7] as nat + 10);
    }
  }

  /** Only powers of two are sizes. */
  lemma RefusesOtherSizes(raw: seq<byte>)
    ensures ValidateSfc(raw) == Err(NotPowerOfTwo) <==> |raw| < 0x8000 || forall k :: Power(k) != |raw|
  {
    hide Sum, LittleEndian;
    if PowerOfTwo(|raw|) {
      var k := PowerOfTwoIsPower(|raw|);
    }
    forall k | Power(k) == |raw| ensures PowerOfTwo(|raw|) {
      PowerIsPower(k);
    }
  }

  /** A finished image passes the validator exactly when its core has a legal map mode and reset vector. */
  lemma FinalValidates(image: seq<byte>, core: seq<byte>, converted: seq<byte>)
    requires |core| == 0x8000 && Final(image, core, converted)
    ensures var reset := LittleEndian(core[0x7FFC], core[0x7FFD]);
      ValidateSfc(image)
        == if (core[0x7FD5] == 0x20 || core[0x7FD5] == 0x30) && reset >= 0x8000 then Ok(reset) else Err(BadHeader)
  {
    hide Sum, Power, Exponent, PowerOfTwo;
    var input := core + converted;
    PowerIsPower(Exponent(|input|));
    PowersMultiply(image[SIZE_FIELD]);
    assert !HeaderByte(MAP_MODE) && !HeaderByte(RESET) && !HeaderByte(RESET + 1);
    assert image[MAP_MODE] == core[MAP_MODE] && image[RESET] == core[RESET] && image[RESET + 1] == core[RESET + 1];
  }
}
