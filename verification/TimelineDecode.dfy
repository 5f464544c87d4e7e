/** Decoding a declared code fragment (tools/timeline_program.py:44-101). */
module TimelineDecode {
  import opened Bytes
  import opened Opcodes

  datatype Line = Line(pc: int, name: Name, mode: Mode, raw: seq<byte>, operand: int)

  /** The opt-in extensions; targets replaces the instruction starts as the set a control transfer may reach. */
  datatype Gates = Gates(ram: bool, rom: bool, mapper: bool, cartridgeRam: bool, cpuIo: bool, ppuBlank: bool,
                         chrBlank: bool, targets: Option<set<int>>)

  datatype Error = GateMissing | Unbounded | Unordered | UnknownOpcode | Truncated | OutsideContract | WrongEntries
                 | UnknownTarget

  // ---- admission ----

  predicate GatesNested(g: Gates) {
    (g.chrBlank ==> g.ppuBlank) && (g.ppuBlank ==> g.cpuIo) && (g.cpuIo ==> g.cartridgeRam)
    && (g.cartridgeRam ==> g.mapper) && (g.mapper ==> g.rom) && (g.rom ==> g.ram)
    && (g.targets.Some? ==> g.mapper && forall t <- g.targets.value :: 0x8000 <= t <= 0xFFFF)
  }

  predicate Fits(length: nat, origin: int) {
    1 <= length <= 2048 && 0x8000 <= origin <= 0xFFF0 && origin + length <= 0xFFFA
  }

  predicate Rising(starts: seq<int>) {
    forall i, j :: 0 <= i < j < |starts| ==> starts[i] < starts[j]
  }

  predicate Control(name: Name) {
    name.JMP? || name.JSR? || name.RTS? || name.RTI? || name.PHA? || name.PHP? || name.PLA? || name.PLP?
    || name.TSX? || name.TXS? || name.CLI? || name.SEI? || name.CLD? || name.SED?
  }

  /** Everything else but BRK. */
  predicate Regular(name: Name) {
    !IsBranch(name) && !Control(name) && !name.BRK?
  }

  predicate Indexed(mode: Mode) {
    mode.ZpX? || mode.ZpY? || mode.AbsX? || mode.AbsY? || mode.IndX? || mode.IndY?
  }

  predicate MapperRegister(operand: int) {
    operand == 0x5100 || 0x5114 <= operand <= 0x5117
  }

  /** Operands that a regular absolute access or an indirect jump may name. */
  predicate Readable(g: Gates, operand: int) {
    (g.ram && operand < 0x2000) || (g.rom && operand >= 0x8000) || (g.cartridgeRam && 0x6000 <= operand < 0x8000)
    || (g.cpuIo && 0x5C00 <= operand < 0x6000)
  }

  predicate Storable(g: Gates, operand: int) {
    (g.mapper && MapperRegister(operand))
    || (g.cartridgeRam && (operand == 0x5102 || operand == 0x5103 || operand == 0x5113))
    || (g.cpuIo && operand == 0x5104)
    || (g.chrBlank && (operand == 0x5101 || operand == 0x5130 || 0x5120 <= operand <= 0x512B))
    || (g.ppuBlank && 0x5105 <= operand <= 0x5107)
  }

  predicate Ported(g: Gates, operand: int) {
    (g.cpuIo && (operand == 0x5205 || operand == 0x5206)) || (g.ppuBlank && 0x2000 <= operand < 0x4000)
  }

  predicate Allowed(g: Gates, name: Name, mode: Mode, operand: int) {
    (Regular(name) && (mode.Imp? || mode.Imm? || mode.Acc? || mode.Zp?))
    || (Regular(name) && mode.Abs? && operand < 512)
    || (Control(name) && mode.Imp?)
    || ((name.JMP? || name.JSR?) && mode.Abs?)
    || (IsBranch(name) && mode.Rel?)
    || (g.ram && Regular(name) && Indexed(mode))
    || (Readable(g, operand) && ((Regular(name) && mode.Abs?) || (name.JMP? && mode.Ind?)))
    || (name.STA? && mode.Abs? && Storable(g, operand))
    || ((name.LDA? || name.STA?) && mode.Abs? && Ported(g, operand))
  }

  /** Little-endian value of at most two operand bytes. */
  function Value(bytes: seq<byte>): nat
    requires |bytes| <= 2
  {
    if |bytes| == 0 then 0 else if |bytes| == 1 then bytes[0] else LittleEndian(bytes[0], bytes[1])
  }

  // ---- decoding ----

  function LineAt(code: seq<byte>, origin: int, pos: nat): Result<Line, Error>
    requires pos < |code|
  {
    match Lookup(code[pos])
    case Unknown => Err(UnknownOpcode)
    case Op(name, mode) =>
      var n := Length(mode);
      if pos + n > |code| then Err(Truncated)
      else Ok(Line(origin + pos, name, mode, code[pos..pos + n], Value(code[pos + 1..pos + n])))
  }

  function LinesFrom(g: Gates, code: seq<byte>, origin: int, pos: nat): Result<seq<Line>, Error>
    requires pos <= |code|
    decreases |code| - pos
  {
    if pos == |code| then Ok([])
    else
      match LineAt(code, origin, pos)
      case Err(e) => Err(e)
      case Ok(line) =>
        if !Allowed(g, line.name, line.mode, line.operand) then Err(OutsideContract)
        else
          match LinesFrom(g, code, origin, pos + Length(line.mode))
          case Err(e) => Err(e)
          case Ok(rest) => Ok([line] + rest)
  }

  function Target(line: Line): Option<int> {
    if (line.name.JMP? || line.name.JSR?) && line.mode.Abs? then Some(line.operand)
    else if line.mode.Rel? then
      Some((line.pc + 2 + (if line.operand < 128 then line.operand else line.operand - 256)) % 0x1_0000)
    else None
  }

  predicate Reaches(g: Gates, starts: seq<int>, line: Line) {
    Target(line).Some? ==> if g.targets.Some? then Target(line).value in g.targets.value else Target(line).value in starts
  }

  predicate AllReach(g: Gates, starts: seq<int>, lines: seq<Line>) {
    forall i {:trigger lines[i]} :: 0 <= i < |lines| ==> Reaches(g, starts, lines[i])
  }

  predicate AtStarts(lines: seq<Line>, starts: seq<int>) {
    |lines| == |starts| && forall i {:trigger lines[i]} {:trigger starts[i]} :: 0 <= i < |lines| ==> lines[i].pc == starts[i]
  }

  function Admission(g: Gates, code: seq<byte>, origin: int, starts: seq<int>): Option<Error> {
    if !GatesNested(g) then Some(GateMissing)
    else if !Fits(|code|, origin) then Some(Unbounded)
    else if !Rising(starts) then Some(Unordered)
    else None
  }

  function Decoded(g: Gates, code: seq<byte>, origin: int, starts: seq<int>): Result<seq<Line>, Error> {
    if Admission(g, code, origin, starts).Some? then Err(Admission(g, code, origin, starts).value)
    else
      match LinesFrom(g, code, origin, 0)
      case Err(e) => Err(e)
      case Ok(lines) =>
        if !AtStarts(lines, starts) then Err(WrongEntries)
        else if !AllReach(g, starts, lines) then Err(UnknownTarget)
        else Ok(lines)
  }

  function After(lines: seq<Line>, rest: Result<seq<Line>, Error>): Result<seq<Line>, Error> {
    match rest case Err(e) => Err(e) case Ok(more) => Ok(lines + more)
  }

  lemma AfterMoves(lines: seq<Line>, line: Line, rest: Result<seq<Line>, Error>)
    ensures After(lines, After([line], rest)) == After(lines + [line], rest)
  {
    if rest.Ok? {
      assert lines + ([line] + rest.value) == (lines + [line]) + rest.value;
    }
  }

  lemma AfterNone(rest: Result<seq<Line>, Error>)
    ensures After([], rest) == rest
  {
    if rest.Ok? {
      assert [] + rest.value == rest.value;
    }
  }

  method Collect(g: Gates, code: seq<byte>, origin: int) returns (r: Result<seq<Line>, Error>)
    ensures r == LinesFrom(g, code, origin, 0)
  {
    hide LineAt, Allowed;
    var pos: nat, lines: seq<Line> := 0, [];
    AfterNone(LinesFrom(g, code, origin, 0));
    while pos < |code|
      invariant pos <= |code|
      invariant LinesFrom(g, code, origin, 0) == After(lines, LinesFrom(g, code, origin, pos))
    {
      var line := LineAt(code, origin, pos);
      match line {
        case Err(e) => return Err(e);
        case Ok(l) =>
          if !Allowed(g, l.name, l.mode, l.operand) {
            return Err(OutsideContract);
          }
          LinesStep(g, code, origin, pos);
          AfterMoves(lines, l, LinesFrom(g, code, origin, pos + Length(l.mode)));
          lines := lines + [l];
          pos := pos + Length(l.mode);
      }
    }
    assert lines + [] == lines;
    r := Ok(lines);
  }

  lemma LinesStep(g: Gates, code: seq<byte>, origin: int, pos: nat)
    requires pos < |code| && LineAt(code, origin, pos).Ok?
    requires var line := LineAt(code, origin, pos).value; Allowed(g, line.name, line.mode, line.operand)
    ensures var line := LineAt(code, origin, pos).value;
      pos + Length(line.mode) <= |code|
      && LinesFrom(g, code, origin, pos) == After([line], LinesFrom(g, code, origin, pos + Length(line.mode)))
  {
    hide Lookup, Allowed, Value;
  }

  method Decode(g: Gates, code: seq<byte>, origin: int, starts: seq<int>) returns (r: Result<seq<Line>, Error>)
    ensures r == Decoded(g, code, origin, starts)
  {
    hide LinesFrom, Reaches, Admission;
    var refused := Admission(g, code, origin, starts);
    if refused.Some? {
      return Err(refused.value);
    }
    var collected := Collect(g, code, origin);
    match collected {
      case Err(e) => return Err(e);
      case Ok(lines) =>
        if |lines| != |starts| {
          return Err(WrongEntries);
        }
        for i := 0 to |lines|
          invariant forall k {:trigger lines[k]} :: 0 <= k < i ==> lines[k].pc == starts[k]
        {
          if lines[i].pc != starts[i] {
            return Err(WrongEntries);
          }
        }
        for i := 0 to |lines|
          invariant forall k {:trigger lines[k]} :: 0 <= k < i ==> Reaches(g, starts, lines[k])
        {
          if !Reaches(g, starts, lines[i]) {
            return Err(UnknownTarget);
          }
        }
        r := Ok(lines);
    }
  }

  // ---- what an accepted decoding is ----

  function Pieces(lines: seq<Line>): seq<byte> {
    if lines == [] then [] else Pieces(lines[..|lines| - 1]) + lines[|lines| - 1].raw
  }

  /** The line is the instruction its own bytes encode. */
  predicate Genuine(line: Line) {
    |line.raw| == Length(line.mode) && Lookup(line.raw[0]) == Op(line.name, line.mode)
    && line.operand == Value(line.raw[1..])
  }

  /** The lines cut the code into consecutive instructions. */
  predicate Tiles(lines: seq<Line>, code: seq<byte>, origin: int) {
    Pieces(lines) == code
    && forall i {:trigger lines[i]} :: 0 <= i < |lines| ==>
        Genuine(lines[i]) && lines[i].pc == origin + |Pieces(lines[..i])|
  }

  predicate AllAllowed(g: Gates, lines: seq<Line>) {
    forall i {:trigger lines[i]} :: 0 <= i < |lines| ==> Allowed(g, lines[i].name, lines[i].mode, lines[i].operand)
  }

  lemma {:induction false} PiecesPrefix(lines: seq<Line>, k: nat)
    requires k < |lines|
    ensures Pieces(lines[..k]) + lines[k].raw == Pieces(lines[..k + 1])
    ensures Pieces(lines[..k + 1]) <= Pieces(lines)
    decreases |lines|
  {
    assert lines[..k + 1][..k] == lines[..k];
    var n := |lines| - 1;
    if k < n {
      assert lines[..n][..k] == lines[..k] && lines[..n][..k + 1] == lines[..k + 1];
      PiecesPrefix(lines[..n], k);
    } else {
      assert lines[..k + 1] == lines;
    }
  }

  /** The place and the decoding of each line of a tiling. */
  lemma TileDecodes(lines: seq<Line>, code: seq<byte>, origin: int, k: nat)
    requires Tiles(lines, code, origin) && k < |lines|
    ensures var pos := |Pieces(lines[..k])|;
      pos < |code| && |Pieces(lines[..k + 1])| == pos + Length(lines[k].mode) <= |code|
      && LineAt(code, origin, pos) == Ok(lines[k])
  {
    hide Lookup, Value;
    PiecesPrefix(lines, k);
    var line, pos := lines[k], |Pieces(lines[..k])|;
    assert Genuine(line) && line.pc == origin + pos;
    PieceAt(Pieces(lines[..k]), line.raw, code);
    hide Pieces, Tiles;
    var n := Length(line.mode);
    assert code[pos + 1..pos + n] == line.raw[1..];
  }

  lemma PieceAt(before: seq<byte>, piece: seq<byte>, code: seq<byte>)
    requires before + piece <= code && piece != []
    ensures code[|before|..|before| + |piece|] == piece && code[|before|] == piece[0]
    ensures code[|before| + 1..|before| + |piece|] == piece[1..]
  {
    var whole := before + piece;
    assert forall i :: 0 <= i < |whole| ==> code[i] == whole[i];
  }

  /** A tiling is what decoding finds. */
  lemma {:induction false} TilesAreLines(g: Gates, lines: seq<Line>, code: seq<byte>, origin: int, k: nat)
    requires Tiles(lines, code, origin) && AllAllowed(g, lines) && k <= |lines|
    ensures |Pieces(lines[..k])| <= |code|
    ensures LinesFrom(g, code, origin, |Pieces(lines[..k])|) == Ok(lines[k..])
    decreases |lines| - k
  {
    hide LineAt, Allowed, Pieces;
    if k == |lines| {
      assert lines[..k] == lines;
    } else {
      TileDecodes(lines, code, origin, k);
      TilesAreLines(g, lines, code, origin, k + 1);
      assert [lines[k]] + lines[k + 1..] == lines[k..];
    }
  }

  lemma TilesExtend(g: Gates, lines: seq<Line>, line: Line, code: seq<byte>, origin: int)
    requires var pos := |Pieces(lines)|;
      pos + |line.raw| <= |code| && Tiles(lines, code[..pos], origin) && line.raw == code[pos..pos + |line.raw|]
    requires AllAllowed(g, lines) && Allowed(g, line.name, line.mode, line.operand)
    requires Genuine(line) && line.pc == origin + |Pieces(lines)|
    ensures var all := lines + [line];
      |Pieces(all)| == |Pieces(lines)| + |line.raw| && Tiles(all, code[..|Pieces(all)|], origin) && AllAllowed(g, all)
  {
    hide Genuine, Allowed;
    var all, pos := lines + [line], |Pieces(lines)|;
    assert all[..|lines|] == lines && Pieces(all) == Pieces(lines) + line.raw;
    assert Pieces(all) == code[..pos] + code[pos..pos + |line.raw|] == code[..|Pieces(all)|];
    forall i | 0 <= i < |all| ensures Genuine(all[i]) && all[i].pc == origin + |Pieces(all[..i])| {
      if i < |lines| {
        assert all[..i] == lines[..i] && all[i] == lines[i];
      }
    }
  }

  /** What decoding finds from a place on tiles the code together with a tiling of what precedes. */
  lemma {:induction false} LinesAreTiles(g: Gates, lines: seq<Line>, code: seq<byte>, origin: int)
    requires |Pieces(lines)| <= |code| && Tiles(lines, code[..|Pieces(lines)|], origin) && AllAllowed(g, lines)
    requires LinesFrom(g, code, origin, |Pieces(lines)|).Ok?
    ensures var all := lines + LinesFrom(g, code, origin, |Pieces(lines)|).value;
      Tiles(all, code, origin) && AllAllowed(g, all)
    decreases |code| - |Pieces(lines)|
  {
    hide LineAt, Allowed, Tiles, AllAllowed, Pieces, Genuine;
    var pos := |Pieces(lines)|;
    if pos == |code| {
      assert code[..pos] == code && lines + [] == lines;
    } else {
      var line := LineAt(code, origin, pos).value;
      LineIsGenuine(code, origin, pos);
      assert |line.raw| == Length(line.mode);
      TilesExtend(g, lines, line, code, origin);
      LinesAreTiles(g, lines + [line], code, origin);
      var rest := LinesFrom(g, code, origin, pos + Length(line.mode)).value;
      assert lines + ([line] + rest) == (lines + [line]) + rest;
    }
  }

  lemma LineIsGenuine(code: seq<byte>, origin: int, pos: nat)
    requires pos < |code| && LineAt(code, origin, pos).Ok?
    ensures var line := LineAt(code, origin, pos).value;
      Genuine(line) && line.pc == origin + pos && pos + Length(line.mode) <= |code|
      && line.raw == code[pos..pos + Length(line.mode)]
  {
    hide Lookup, Value;
    var line := LineAt(code, origin, pos).value;
    assert line.raw[1..] == code[pos + 1..pos + Length(line.mode)];
  }

  /** Decoding accepts exactly one thing: the lines that tile the code, all within the contract, at the declared
    * starts, with every direct target declared. */
  lemma {:induction false} DecodesExactly(g: Gates, code: seq<byte>, origin: int, starts: seq<int>, lines: seq<Line>)
    ensures Decoded(g, code, origin, starts) == Ok(lines)
      <==> (GatesNested(g) && Fits(|code|, origin) && Rising(starts) && Tiles(lines, code, origin)
            && AllAllowed(g, lines) && AtStarts(lines, starts) && AllReach(g, starts, lines))
  {
    hide LineAt, Allowed, GatesNested, Fits, Rising, Reaches;
    if Tiles(lines, code, origin) && AllAllowed(g, lines) {
      TilesAreLines(g, lines, code, origin, 0);
      assert lines[..0] == [] && lines[0..] == lines;
    }
    if Decoded(g, code, origin, starts) == Ok(lines) {
      var none: seq<Line> := [];
      assert Pieces(none) == [] && code[..0] == [];
      LinesAreTiles(g, none, code, origin);
      assert none + lines == lines;
    }
  }
}
