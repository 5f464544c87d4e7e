/** Why the accesses left to the 65C816 reach the byte the NES would reach, for
    every 8-bit index, and why the trapped ones could not be left alone. */
module NativeAddress {
  import opened Bytes
  import opened Opcodes
  import opened BuildNative
  import opened NativeSafe

  /** Direct and indexed modes: their address depends on the operand, X and Y only. */
  predicate Addressed(mode: Mode) {
    mode.Zp? || mode.ZpX? || mode.ZpY? || mode.Abs? || mode.AbsX? || mode.AbsY?
  }

  function Index(mode: Mode, x: byte, y: byte): byte {
    if mode.ZpX? || mode.AbsX? then x else if mode.ZpY? || mode.AbsY? then y else 0
  }

  /** The 6502 wraps inside page zero, or at the top of the 16-bit address space. */
  function GuestAddress(mode: Mode, operand: word, x: byte, y: byte): word
    requires OperandFits(operand, Length(mode))
  {
    var sum := operand as int + Index(mode, x, y) as int;
    var size := if mode.Zp? || mode.ZpX? || mode.ZpY? then 0x100 else 0x1_0000;
    if sum < size then sum else sum - size
  }

  /** The 65C816 in native mode, with the direct page at 0, does neither. */
  function HostAddress(mode: Mode, operand: word, x: byte, y: byte): nat {
    operand as int + Index(mode, x, y) as int
  }

  /** Internal RAM repeats every 2 KiB below $2000. */
  function Mirrored(address: word): word {
    if address < 0x2000 then address % 0x800 else address
  }

  /** RAM once, or program ROM: memory the host bank maps like the guest. */
  predicate PlainMemory(address: nat) {
    address < 0x800 || 0x8000 <= address < 0x1_0000
  }

  /** Issued with the given native operand, the access needs no emulation. */
  ghost predicate Sound(mode: Mode, operand: word, native: word)
    requires OperandFits(operand, Length(mode))
  {
    forall x: byte, y: byte ::
      && HostAddress(mode, native, x, y) == Mirrored(GuestAddress(mode, operand, x, y))
      && PlainMemory(HostAddress(mode, native, x, y))
  }

  /** The operand the executable copy issues, if the access is not trapped. */
  function Issued(op: Entry, operand: word): Option<word> {
    if !Intercept(op, operand) then Some(operand)
    else match Rule(op, operand)
      case Native(native, _) => Some(native)
      case _ => None
  }

  predicate Access(op: Entry, operand: word) {
    op.Op? && IsOperation(op.name) && Addressed(op.mode) && OperandFits(operand, Length(op.mode))
  }

  ghost predicate SoundAt(mode: Mode, operand: word, native: word, index: byte)
    requires OperandFits(operand, Length(mode))
  {
    && HostAddress(mode, native, index, index) == Mirrored(GuestAddress(mode, operand, index, index))
    && PlainMemory(HostAddress(mode, native, index, index))
  }

  lemma SoundAtIndex(mode: Mode, operand: word, native: word)
    requires OperandFits(operand, Length(mode))
    ensures Sound(mode, operand, native) <==> forall index: byte :: SoundAt(mode, operand, native, index)
  {
    if forall index: byte :: SoundAt(mode, operand, native, index) {
      forall x: byte, y: byte
        ensures HostAddress(mode, native, x, y) == Mirrored(GuestAddress(mode, operand, x, y))
          && PlainMemory(HostAddress(mode, native, x, y))
      {
        assert SoundAt(mode, operand, native, Index(mode, x, y));
      }
    }
  }

  lemma IssuedIsSound(op: Entry, operand: word, native: word, index: byte)
    requires Access(op, operand) && Issued(op, operand) == Some(native)
    ensures SoundAt(op.mode, operand, native, index)
  {
    hide IsOperation;
    match op.mode
    case Zp =>
    case ZpX => case ZpY =>
    case Abs =>
    case AbsX => IndexedIsSound(op, operand, native, index);
    case AbsY => IndexedIsSound(op, operand, native, index);
    case _ =>
  }

  lemma IndexedIsSound(op: Entry, operand: word, native: word, index: byte)
    requires Access(op, operand) && Issued(op, operand) == Some(native) && (op.mode.AbsX? || op.mode.AbsY?)
    ensures SoundAt(op.mode, operand, native, index)
  {
    hide IsOperation;
    if 0x800 <= operand < 0x2000 {
      var page := operand / 0x800;
      assert operand == 0x800 * page + native && native + index < 0x800;
    }
  }

  /** The two ends of the index range already decide. */
  lemma SoundIsIssued(op: Entry, operand: word, native: word)
    requires Access(op, operand)
    requires SoundAt(op.mode, operand, native, 0) && SoundAt(op.mode, operand, native, 0xFF)
    ensures Issued(op, operand) == Some(native)
  {
    hide IsOperation;
    match op.mode
    case Zp =>
    case ZpX => SoundZeroPageIsIssued(op, operand, native);
    case ZpY => SoundZeroPageIsIssued(op, operand, native);
    case Abs =>
    case AbsX => SoundIndexedIsIssued(op, operand, native);
    case AbsY => SoundIndexedIsIssued(op, operand, native);
    case _ =>
  }

  lemma SoundZeroPageIsIssued(op: Entry, operand: word, native: word)
    requires Access(op, operand) && (op.mode.ZpX? || op.mode.ZpY?)
    requires SoundAt(op.mode, operand, native, 0) && SoundAt(op.mode, operand, native, 0xFF)
    ensures Issued(op, operand) == Some(native)
  {
    hide IsOperation;
    assert native == operand;
    assert operand > 0 ==> native + 0xFF == operand - 1;
  }

  lemma SoundIndexedIsIssued(op: Entry, operand: word, native: word)
    requires Access(op, operand) && (op.mode.AbsX? || op.mode.AbsY?)
    requires SoundAt(op.mode, operand, native, 0) && SoundAt(op.mode, operand, native, 0xFF)
    ensures Issued(op, operand) == Some(native)
  {
    hide IsOperation;
    assert native == Mirrored(operand);
    assert native + 0xFF == Mirrored(GuestAddress(op.mode, operand, 0xFF, 0xFF));
  }

  /** Classification and substitution leave native exactly the accesses that some
      operand makes sound, and the operand they issue is the only one that does. */
  lemma IssuedExactlyWhenSound(op: Entry, operand: word, native: word)
    requires Access(op, operand)
    ensures Issued(op, operand) == Some(native) <==> Sound(op.mode, operand, native)
  {
    SoundAtIndex(op.mode, operand, native);
    if Issued(op, operand) == Some(native) {
      forall index: byte ensures SoundAt(op.mode, operand, native, index) {
        IssuedIsSound(op, operand, native, index);
      }
    }
    if Sound(op.mode, operand, native) {
      SoundIsIssued(op, operand, native);
    }
  }
}
