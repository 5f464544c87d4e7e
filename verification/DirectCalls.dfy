/** Same-size JSR veneers for supported absolute accesses, and the call-site
    rewriting that all three veneer passes share (tools/direct_calls.py). */
module DirectCalls {
  import opened Bytes
  import opened Opcodes
  import opened NativeCfg
  import opened BuildNative
  import opened CodeLayout

  datatype Handler = Write(slot: byte) | Read(slot: byte) | Mapper(address: word) | Backing(address: word)
    | Apu(register: byte) | Bank(address: word)

  const RAM_START := 0x1000
  const RAM_END := 0x1800

  /** STA, STX and STY with an absolute operand. */
  predicate IsStore(opcode: byte) {
    opcode == 0x8D || opcode == 0x8E || opcode == 0x8C
  }

  /** The live PRG bank selectors. */
  predicate IsSelector(address: word) {
    0x5115 <= address <= 0x5117
  }

  /** The register semantics the bridge implements, by opcode and address. */
  function HandlerKind(opcode: byte, address: word): Option<Handler> {
    if IsStore(opcode) then
      if 0x2000 <= address < 0x4000 then Some(Write(address % 8))
      else if address == 0x4014 then Some(Write(8))
      else if address == 0x4016 then Some(Write(9))
      else if address == 0x5203 then Some(Write(10))
      else if address == 0x5204 then Some(Write(11))
      else if 0x5100 <= address < 0x512C && !IsSelector(address) then Some(Mapper(address))
      else if 0x4000 <= address < 0x4014 || address == 0x4015 then Some(Backing(address))
      else None
    else if opcode == 0xAD then
      if 0x2000 <= address < 0x4000 && address % 8 == 2 then Some(Read(0))
      else if address == 0x4016 then Some(Read(1))
      else if address == 0x4017 then Some(Read(2))
      else if address == 0x5204 then Some(Read(3))
      else None
    else None
  }

  datatype Options = Options(safeAddresses: bool, direct: bool, bankDirect: bool, audioCounters: bool,
                             controller: bool, dispatch: bool)

  /** The whitelist with the optional sound and bank-selector handlers. */
  function Planned(opcode: byte, address: word, opts: Options): Option<Handler> {
    if opts.bankDirect && IsStore(opcode) && IsSelector(address) then Some(Bank(address))
    else if opts.audioCounters && IsStore(opcode) && (0x4000 <= address < 0x4014 || address == 0x4015 || address == 0x4017) then
      Some(Apu(address % 0x20))
    else HandlerKind(opcode, address)
  }

  datatype Label = Direct(opcode: byte, address: word) | Controller(target: word) | Dispatch(target: word)

  /** A three-byte call to be written at a site that must still hold the expected bytes. */
  datatype CallSite = CallSite(at: nat, expected: seq<byte>, symbol: Label)

  type Symbols = map<Label, int>

  datatype CallError = MissingLabel | OutsideWram | NotClassified

  predicate Resident(symbols: Symbols, name: Label) {
    name in symbols && RAM_START <= symbols[name] < RAM_END
  }

  function CallTo(address: int): (r: seq<byte>)
    requires 0 <= address < 0x1_0000
    ensures |r| == 3
  {
    [0x20, address % 0x100, address / 0x100]
  }

  predicate Holds(code: seq<byte>, at: nat, bytes: seq<byte>) {
    at + |bytes| <= |code| && code[at..at + |bytes|] == bytes
  }

  function CallOne(code: seq<byte>, site: CallSite, symbols: Symbols): (r: Result<seq<byte>, CallError>)
    requires site.at + 3 <= |code|
    ensures r.Ok? ==> |r.value| == |code|
  {
    if site.symbol !in symbols then Err(MissingLabel)
    else if !Resident(symbols, site.symbol) then Err(OutsideWram)
    else if !Holds(code, site.at, site.expected) then Err(NotClassified)
    else Ok(Bytes.Write(code, site.at, CallTo(symbols[site.symbol])))
  }

  ghost predicate Within(sites: seq<CallSite>, size: nat) {
    forall k {:trigger sites[k]} :: 0 <= k < |sites| ==> sites[k].at + 3 <= size
  }

  ghost function Called(code: seq<byte>, sites: seq<CallSite>, symbols: Symbols): (r: Result<seq<byte>, CallError>)
    requires Within(sites, |code|)
    ensures r.Ok? ==> |r.value| == |code|
    decreases |sites|
  {
    if sites == [] then Ok(code)
    else match Called(code, sites[..|sites| - 1], symbols)
      case Err(e) => Err(e)
      case Ok(c) => CallOne(c, sites[|sites| - 1], symbols)
  }

  lemma {:induction false} ErrorStays(code: seq<byte>, sites: seq<CallSite>, symbols: Symbols, k: nat)
    requires Within(sites, |code|) && k <= |sites|
    requires Within(sites[..k], |code|) && Called(code, sites[..k], symbols).Err?
    ensures Called(code, sites, symbols) == Called(code, sites[..k], symbols)
    decreases |sites|
  {
    if k == |sites| {
      assert sites[..k] == sites;
    } else {
      assert sites[..|sites| - 1][..k] == sites[..k];
      ErrorStays(code, sites[..|sites| - 1], symbols, k);
    }
  }

  /** Rewrites every site in turn, or stops at the first refusal. */
  method Apply(code: seq<byte>, sites: seq<CallSite>, symbols: Symbols) returns (r: Result<seq<byte>, CallError>)
    requires Within(sites, |code|)
    ensures r == Called(code, sites, symbols)
  {
    var result := new byte[|code|](i requires 0 <= i < |code| => code[i]);
    assert result[..] == code;
    for k := 0 to |sites|
      invariant Called(code, sites[..k], symbols) == Ok(result[..])
    {
      assert sites[..k + 1][..k] == sites[..k];
      var site := sites[k];
      assert site in sites;
      ghost var done := Called(code, sites[..k + 1], symbols);
      if site.symbol !in symbols {
        ErrorStays(code, sites, symbols, k + 1);
        return Err(MissingLabel);
      }
      var address := symbols[site.symbol];
      if !(RAM_START <= address < RAM_END) {
        ErrorStays(code, sites, symbols, k + 1);
        return Err(OutsideWram);
      }
      if !Holds(result[..], site.at, site.expected) {
        ErrorStays(code, sites, symbols, k + 1);
        return Err(NotClassified);
      }
      Overwrite(result, site.at, CallTo(address));
    }
    assert sites[..|sites|] == sites;
    r := Ok(result[..]);
  }

  ghost predicate AllResident(sites: seq<CallSite>, symbols: Symbols) {
    forall k {:trigger sites[k]} :: 0 <= k < |sites| ==> Resident(symbols, sites[k].symbol)
  }

  /** Every site is a three-byte instruction that still begins as expected. */
  ghost predicate Current(layout: Layout, sites: seq<CallSite>) {
    forall k {:trigger sites[k]} :: 0 <= k < |sites| ==>
      var s := sites[k]; s.at in layout && |layout[s.at]| == 3 && s.expected <= layout[s.at]
  }

  /** The layout with every call in place. */
  ghost function Retargeted(layout: Layout, sites: seq<CallSite>, symbols: Symbols): Layout
    requires AllResident(sites, symbols)
    decreases |sites|
  {
    if sites == [] then layout
    else
      var last := sites[|sites| - 1];
      Retargeted(layout, sites[..|sites| - 1], symbols)[last.at := CallTo(symbols[last.symbol])]
  }

  ghost predicate Apart(sites: seq<CallSite>) {
    forall k, l :: 0 <= k < l < |sites| ==> sites[k].at != sites[l].at
  }

  lemma {:induction false} RetargetedAt(layout: Layout, sites: seq<CallSite>, symbols: Symbols)
    requires Apart(sites) && AllResident(sites, symbols)
    ensures var r := Retargeted(layout, sites, symbols);
      && (forall i :: i in layout ==> i in r)
      && (forall k {:trigger sites[k]} :: 0 <= k < |sites| ==>
            sites[k].at in r && r[sites[k].at] == CallTo(symbols[sites[k].symbol]))
      && (forall i :: i in r && (forall k {:trigger sites[k]} :: 0 <= k < |sites| ==> sites[k].at != i) ==>
            i in layout && r[i] == layout[i])
    decreases |sites|
  {
    if sites != [] {
      var before, last := sites[..|sites| - 1], sites[|sites| - 1];
      assert sites == before + [last];
      RetargetedAt(layout, before, symbols);
    }
  }

  lemma PlacedHolds(layout: Layout, code: seq<byte>, at: nat, bytes: seq<byte>)
    requires Placed(layout, code) && at in layout && bytes <= layout[at]
    ensures Holds(code, at, bytes)
  {
    assert code[at..at + |layout[at]|] == layout[at];
    assert code[at..at + |bytes|] == layout[at][..|bytes|];
  }

  lemma CallOneRealises(layout: Layout, code: seq<byte>, site: CallSite, symbols: Symbols)
    requires Realises(layout, code) && site.at + 3 <= |code| && Resident(symbols, site.symbol)
    requires site.at in layout && |layout[site.at]| == 3 && site.expected <= layout[site.at]
    ensures CallOne(code, site, symbols).Ok?
    ensures Realises(layout[site.at := CallTo(symbols[site.symbol])], CallOne(code, site, symbols).value)
  {
    PlacedHolds(layout, code, site.at, site.expected);
    WriteRealises(layout, code, site.at, CallTo(symbols[site.symbol]));
  }

  /** Where every site still holds the bytes it expects and every label is
      resident, no refusal fires and the calls land in the layout. */
  lemma {:induction false} CalledRealises(layout: Layout, code: seq<byte>, sites: seq<CallSite>, symbols: Symbols)
    requires Realises(layout, code) && Apart(sites) && Within(sites, |code|)
    requires Current(layout, sites)
    requires AllResident(sites, symbols)
    ensures Called(code, sites, symbols).Ok?
    ensures Realises(Retargeted(layout, sites, symbols), Called(code, sites, symbols).value)
    decreases |sites|
  {
    hide Realises, CallOne, Holds, CallTo, Resident;
    if sites != [] {
      var before, last := sites[..|sites| - 1], sites[|sites| - 1];
      assert sites == before + [last] && last in sites;
      CalledRealises(layout, code, before, symbols);
      RetargetedAt(layout, before, symbols);
      assert forall k :: 0 <= k < |before| ==> before[k].at != last.at;
      CallOneRealises(Retargeted(layout, before, symbols), Called(code, before, symbols).value, last, symbols);
    }
  }

  /** The refusal that a stale site would cause cannot come before a label is at fault. */
  lemma {:induction false} OnlyLabelsFail(layout: Layout, code: seq<byte>, sites: seq<CallSite>, symbols: Symbols)
    requires Realises(layout, code) && Apart(sites) && Within(sites, |code|)
    requires Current(layout, sites)
    ensures Called(code, sites, symbols).Ok? <==> AllResident(sites, symbols)
    ensures Called(code, sites, symbols) != Err(NotClassified)
    decreases |sites|
  {
    hide Realises, Resident, CallTo, Holds;
    if sites != [] {
      var before, last := sites[..|sites| - 1], sites[|sites| - 1];
      assert sites == before + [last] && last in sites;
      OnlyLabelsFail(layout, code, before, symbols);
      if AllResident(before, symbols) {
        if Resident(symbols, last.symbol) {
          CalledRealises(layout, code, sites, symbols);
        }
      }
    }
  }
}
