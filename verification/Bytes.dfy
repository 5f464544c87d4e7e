/** Bytes, words and byte buffers. */
module Bytes {
  type byte = x: int | 0 <= x < 0x100
  type word = x: int | 0 <= x < 0x1_0000

  datatype Option<+T> = None | Some(value: T)

  datatype Result<+T, +E> = Ok(value: T) | Err(error: E)

  function LittleEndian(low: byte, high: byte): word {
    low as int + 0x100 * high as int
  }

  /** The buffer with bytes written over it at the given offset. */
  function Write(code: seq<byte>, at: nat, bytes: seq<byte>): (r: seq<byte>)
    requires at + |bytes| <= |code|
    ensures |r| == |code|
  {
    code[..at] + bytes + code[at + |bytes|..]
  }

  method Overwrite(code: array<byte>, at: nat, bytes: seq<byte>)
    requires at + |bytes| <= code.Length
    modifies code
    ensures code[..] == Write(old(code[..]), at, bytes)
  {
    forall j | 0 <= j < |bytes| {
      code[at + j] := bytes[j];
    }
  }

  /** A shorter second write at the same place keeps the tail of the first. */
  lemma WriteTwice(code: seq<byte>, at: nat, first: seq<byte>, second: seq<byte>)
    requires at + |first| <= |code| && |second| <= |first|
    ensures Write(Write(code, at, first), at, second) == Write(code, at, second + first[|second|..])
  {
    var a, b := Write(Write(code, at, first), at, second), Write(code, at, second + first[|second|..]);
    assert forall i :: 0 <= i < |code| ==> a[i] == b[i];
  }
}
