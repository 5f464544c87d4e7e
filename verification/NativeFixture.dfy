/** The small assembler of the test programs: instructions, labels and fixups (tools/native_fixture.py:14-43). */
module NativeFixture {
  import opened Bytes
  import opened Opcodes

  /** An operand is a number, or the name of a label that finishing resolves. */
  datatype Operand = Number(value: int) | Reference(name: string)

  datatype Item = Instruction(name: Name, mode: Mode, operand: Operand) | Mark(text: string)

  datatype Fixup = Fixup(at: nat, mode: Mode, name: string)

  datatype Failure = UnknownForm | DuplicateLabel | OperandTooLarge | Unresolved | BranchOutOfRange | AddressOutOfRange

  datatype Source = Source(origin: int, data: seq<byte>, starts: seq<int>, labels: map<string, int>, fixups: seq<Fixup>)

  function Empty(origin: int): Source {
    Source(origin, [], [], map[], [])
  }

  function Pc(p: Source): int {
    p.origin + |p.data|
  }

  /** The n low bytes of a value, lowest first. */
  function Low(value: int, n: nat): (r: seq<byte>)
    requires n <= 2
    ensures |r| == n
  {
    if n == 0 then [] else if n == 1 then [value % 0x100] else [value % 0x100, value / 0x100 % 0x100]
  }

  predicate InBytes(value: int, n: nat)
    requires n <= 2
  {
    0 <= value && (n == 1 ==> value < 0x100) && (n == 2 ==> value < 0x1_0000)
  }

  /** Placing an item; a failed instruction may already have left its opcode behind. */
  function Placed(p: Source, item: Item): (Source, Option<Failure>) {
    match item
    case Mark(text) =>
      if text in p.labels then (p, Some(DuplicateLabel)) else (p.(labels := p.labels[text := Pc(p)]), None)
    case Instruction(name, mode, operand) =>
      match Reverse(name, mode)
      case None => (p, Some(UnknownForm))
      case Some(opcode) =>
        var begun := p.(starts := p.starts + [Pc(p)], data := p.data + [opcode]);
        var noted := if operand.Number? then begun
                     else begun.(fixups := p.fixups + [Fixup(|begun.data|, mode, operand.name)]);
        var value := if operand.Number? then operand.value else 0;
        var n := Length(mode) - 1;
        if n > 0 && !InBytes(value, n) then (noted, Some(OperandTooLarge))
        else (noted.(data := noted.data + Low(value, n)), None)
  }

  /** The program after all the items, if none failed. */
  function Assembled(origin: int, items: seq<Item>): Option<Source>
    decreases |items|
  {
    if items == [] then Some(Empty(origin))
    else
      match Assembled(origin, items[..|items| - 1])
      case None => None
      case Some(p) => var (q, failure) := Placed(p, items[|items| - 1]); if failure.None? then Some(q) else None
  }

  // ---- finishing ----

  /** A fixup that finishing can reach in a buffer of this length. */
  predicate Within(f: Fixup, length: nat) {
    f.at <= length && (f.mode == Rel ==> f.at < length)
  }

  predicate AllWithin(fixups: seq<Fixup>, length: nat) {
    forall i {:trigger fixups[i]} :: 0 <= i < |fixups| ==> Within(fixups[i], length)
  }

  function Displacement(origin: int, f: Fixup, target: int): int {
    target - (origin + f.at + 1)
  }

  function Refusal(origin: int, labels: map<string, int>, f: Fixup): Option<Failure> {
    if f.name !in labels then Some(Unresolved)
    else if f.mode == Rel then
      if -128 <= Displacement(origin, f, labels[f.name]) <= 127 then None else Some(BranchOutOfRange)
    else if 0 <= labels[f.name] <= 0xFFFF then None else Some(AddressOutOfRange)
  }

  /** A word write replaces what is left of the two bytes at its place, and may lengthen the buffer. */
  function Patch(origin: int, labels: map<string, int>, data: seq<byte>, f: Fixup): (r: seq<byte>)
    requires Within(f, |data|) && Refusal(origin, labels, f).None?
    ensures |r| >= |data|
  {
    var target := labels[f.name];
    if f.mode == Rel then data[f.at := Displacement(origin, f, target) % 0x100]
    else data[..f.at] + Low(target, 2) + data[if f.at + 2 < |data| then f.at + 2 else |data|..]
  }

  /** The buffer after the fixups in order, up to the first that is refused. */
  function Patched(origin: int, labels: map<string, int>, data: seq<byte>, fixups: seq<Fixup>): (r: (seq<byte>, Option<Failure>))
    requires AllWithin(fixups, |data|)
    ensures |r.0| >= |data|
    decreases |fixups|
  {
    if fixups == [] then (data, None)
    else
      var before := Patched(origin, labels, data, fixups[..|fixups| - 1]);
      var f := fixups[|fixups| - 1];
      if before.1.Some? then before
      else if Refusal(origin, labels, f).Some? then (before.0, Refusal(origin, labels, f))
      else (Patch(origin, labels, before.0, f), None)
  }

  lemma PlacedKeepsWithin(p: Source, item: Item)
    requires AllWithin(p.fixups, |p.data|)
    ensures AllWithin(Placed(p, item).0.fixups, |Placed(p, item).0.data|)
  {
    hide Reverse;
    var q := Placed(p, item).0;
    assert |q.data| >= |p.data|;
  }

  class Program {
    const origin: int
    var data: seq<byte>
    var starts: seq<int>
    var labels: map<string, int>
    var fixups: seq<Fixup>

    ghost function State(): Source
      reads this
    {
      Source(origin, data, starts, labels, fixups)
    }

    ghost predicate Valid()
      reads this
    {
      AllWithin(fixups, |data|)
    }

    constructor (origin: int)
      ensures Valid() && State() == Empty(origin)
    {
      this.origin := origin;
      data, starts, labels, fixups := [], [], map[], [];
    }

    method Label(name: string) returns (failure: Option<Failure>)
      requires Valid()
      modifies this
      ensures Valid() && (State(), failure) == Placed(old(State()), Mark(name))
    {
      if name in labels {
        return Some(DuplicateLabel);
      }
      labels := labels[name := origin + |data|];
      failure := None;
    }

    method Op(name: Name, mode: Mode, operand: Operand) returns (failure: Option<Failure>)
      requires Valid()
      modifies this
      ensures Valid() && (State(), failure) == Placed(old(State()), Instruction(name, mode, operand))
    {
      hide Reverse, Low, InBytes;
      PlacedKeepsWithin(State(), Instruction(name, mode, operand));
      hide AllWithin;
      var opcode := Reverse(name, mode);
      match opcode {
        case None => return Some(UnknownForm);
        case Some(byte) =>
          starts := starts + [origin + |data|];
          data := data + [byte];
          var value := 0;
          if operand.Reference? {
            fixups := fixups + [Fixup(|data|, mode, operand.name)];
          } else {
            value := operand.value;
          }
          var n := Length(mode) - 1;
          if n > 0 && !InBytes(value, n) {
            return Some(OperandTooLarge);
          }
          data := data + Low(value, n);
          failure := None;
      }
    }

    /** Patches the buffer in place and stops at the first refused fixup. */
    method Finish() returns (failure: Option<Failure>)
      requires Valid()
      modifies this`data
      ensures Valid() && (data, failure) == Patched(origin, labels, old(data), fixups)
    {
      failure := None;
      var i := 0;
      while i < |fixups|
        invariant 0 <= i <= |fixups| && failure.None? && |data| >= |old(data)|
        invariant AllWithin(fixups[..i], |old(data)|)
        invariant (data, failure) == Patched(origin, labels, old(data), fixups[..i])
      {
        var f := fixups[i];
        assert fixups[..i + 1][..i] == fixups[..i] && fixups[..i + 1][i] == f;
        failure := Refusal(origin, labels, f);
        if failure.Some? {
          PatchedStops(origin, labels, old(data), fixups, i);
          return;
        }
        data := Patch(origin, labels, data, f);
        i := i + 1;
      }
      assert fixups[..i] == fixups;
    }
  }

  lemma {:induction false} PatchedStops(origin: int, labels: map<string, int>, data: seq<byte>, fixups: seq<Fixup>, k: nat)
    requires AllWithin(fixups, |data|) && k < |fixups|
    requires Patched(origin, labels, data, fixups[..k]).1.None? && Refusal(origin, labels, fixups[k]).Some?
    ensures Patched(origin, labels, data, fixups)
      == (Patched(origin, labels, data, fixups[..k]).0, Refusal(origin, labels, fixups[k]))
    decreases |fixups|
  {
    var n := |fixups| - 1;
    if k < n {
      assert fixups[..n][..k] == fixups[..k];
      PatchedStops(origin, labels, data, fixups[..n], k);
    } else {
      assert fixups[..n] == fixups[..k];
    }
  }
}
