/** The rewriting chain of build (tools/build_native.py): expansion,
    classification, safe substitution, veneer calls, recognized routines. */
module Pipeline {
  import opened Bytes
  import opened Opcodes
  import opened NativeCfg
  import opened BuildNative
  import opened CodeLayout
  import NativeSafe
  import opened DirectCalls
  import opened CallPatterns

  /** Trap sites the safe pass turns back into native accesses. */
  predicate MadeSafe(prg: seq<byte>, opts: Options, i: nat)
    requires Fits(prg, i)
  {
    opts.safeAddresses && Trapped(prg, i) && NativeSafe.Choose(prg, i).Native?
  }

  predicate HasVeneer(prg: seq<byte>, opts: Options, i: nat)
    requires Fits(prg, i)
  {
    && opts.direct && Trapped(prg, i) && !MadeSafe(prg, opts, i)
    && Lookup(prg[i]).mode == Abs
    && DirectCalls.Planned(prg[i], OperandAt(prg, i), opts).Some?
  }

  /** The call that ends up at the start i, if any. */
  function CallLabel(prg: seq<byte>, counts: seq<int>, opts: Options, i: nat): Option<Label>
    requires |counts| == |prg| && Fits(prg, i)
  {
    if HasVeneer(prg, opts, i) then Some(Direct(prg[i], OperandAt(prg, i)))
    else if opts.direct && opts.controller && CallsPattern(prg, counts, CONTROLLER, i) then
      Some(Controller(OperandAt(prg, i)))
    else if opts.direct && opts.dispatch && CallsPattern(prg, counts, DISPATCH, i) then
      Some(Dispatch(OperandAt(prg, i)))
    else None
  }

  /** The executable bytes of the instruction at i, in one step. */
  function Final(prg: seq<byte>, counts: seq<int>, opts: Options, symbols: Symbols, i: nat): seq<byte>
    requires |counts| == |prg| && Fits(prg, i)
    requires var l := CallLabel(prg, counts, opts, i); l.Some? ==> Resident(symbols, l.value)
  {
    match CallLabel(prg, counts, opts, i)
    case Some(name) => CallTo(symbols[name])
    case None => if MadeSafe(prg, opts, i) then NativeSafe.Substituted(prg, i) else Patch(prg, i)
  }

  ghost predicate LabelsResident(prg: seq<byte>, counts: seq<int>, opts: Options, symbols: Symbols) {
    |counts| == |prg| &&
    forall i: nat {:trigger Start(counts, i)} :: Start(counts, i) && Fits(prg, i) ==>
      (var l := CallLabel(prg, counts, opts, i); l.Some? ==> Resident(symbols, l.value))
  }

  ghost function FinalLayout(prg: seq<byte>, counts: seq<int>, opts: Options, symbols: Symbols): Layout
    requires LabelsResident(prg, counts, opts, symbols)
  {
    map i: nat | i < |prg| && Start(counts, i) && Fits(prg, i) :: Final(prg, counts, opts, symbols, i)
  }

  function VeneerSite(prg: seq<byte>, i: nat): CallSite
    requires Fits(prg, i)
  {
    CallSite(i, [0x02, prg[i]], Direct(prg[i], OperandAt(prg, i)))
  }

  /** The veneer sites among the first sites, in their order. */
  ghost predicate PlannedVeneers(prg: seq<byte>, opts: Options, sites: seq<nat>, calls: seq<CallSite>) {
    && NativeSafe.Sites(prg, sites)
    && (forall k, l :: 0 <= k < l < |calls| ==> calls[k].at < calls[l].at)
    && (forall k {:trigger calls[k]} :: 0 <= k < |calls| ==>
          calls[k].at in sites && Fits(prg, calls[k].at) && Lookup(prg[calls[k].at]).mode == Abs
          && DirectCalls.Planned(prg[calls[k].at], OperandAt(prg, calls[k].at), opts).Some?
          && calls[k] == VeneerSite(prg, calls[k].at))
    && (forall i <- sites :: Lookup(prg[i]).mode == Abs && DirectCalls.Planned(prg[i], OperandAt(prg, i), opts).Some? ==>
          exists k :: 0 <= k < |calls| && calls[k].at == i)
  }

  method PlanVeneers(prg: seq<byte>, opts: Options, sites: seq<nat>) returns (calls: seq<CallSite>)
    requires NativeSafe.Sites(prg, sites) && Ascending(sites)
    ensures PlannedVeneers(prg, opts, sites, calls)
  {
    hide Opcodes.Lookup, DirectCalls.Planned;
    calls := [];
    for n := 0 to |sites|
      invariant PlannedVeneers(prg, opts, sites[..n], calls)
    {
      var i := sites[n];
      assert sites[..n + 1] == sites[..n] + [i] && i in sites;
      if Lookup(prg[i]).mode == Abs && DirectCalls.Planned(prg[i], OperandAt(prg, i), opts).Some? {
        ghost var before := calls;
        calls := calls + [VeneerSite(prg, i)];
        assert calls[|before|].at == i && forall k :: 0 <= k < |before| ==> calls[k] == before[k];
      }
    }
    assert sites[..|sites|] == sites;
  }

  /** The code between the safe pass and the calls; the image of slot 31 keeps it. */
  function BaseLayout(prg: seq<byte>, counts: seq<int>, opts: Options): Layout
    requires |counts| == |prg|
  {
    map i: nat | i < |prg| && Start(counts, i) && Fits(prg, i) ::
      if MadeSafe(prg, opts, i) then NativeSafe.Substituted(prg, i) else Patch(prg, i)
  }

  lemma BaseIsSubstitutions(prg: seq<byte>, counts: seq<int>, opts: Options, sites: seq<nat>)
    requires |counts| == |prg| && TrapSites(prg, counts, sites, |prg|)
    ensures BaseLayout(prg, counts, opts)
      == if opts.safeAddresses then NativeSafe.Substitutions(prg, counts, sites) else Classification(prg, counts)
  {
    forall i: nat | i < |prg| && Start(counts, i) && Fits(prg, i)
      ensures NativeSafe.Substitution(prg, sites, i)
        == if Trapped(prg, i) && NativeSafe.Choose(prg, i).Native? then NativeSafe.Substituted(prg, i) else Patch(prg, i)
    {
      assert i in sites <==> TrapSite(prg, counts, i);
    }
  }

  /** The site sits on a start that is labelled with its symbol and still reads as expected. */
  predicate Carries(prg: seq<byte>, counts: seq<int>, opts: Options, call: CallSite) {
    && |counts| == |prg|
    && Start(counts, call.at) && Fits(prg, call.at)
    && CallLabel(prg, counts, opts, call.at) == Some(call.symbol)
    && call.at in BaseLayout(prg, counts, opts)
    && |BaseLayout(prg, counts, opts)[call.at]| == 3
    && call.expected <= BaseLayout(prg, counts, opts)[call.at]
  }

  lemma VeneerCarries(prg: seq<byte>, counts: seq<int>, opts: Options, i: nat)
    requires |counts| == |prg| && Start(counts, i) && Fits(prg, i) && HasVeneer(prg, opts, i)
    ensures Carries(prg, counts, opts, VeneerSite(prg, i))
  {
    assert i in BaseLayout(prg, counts, opts);
  }

  lemma JsrStaysPlain(prg: seq<byte>, i: nat)
    requires i + 3 <= |prg| && prg[i] == 0x20
    ensures Fits(prg, i) && Size(prg[i]) == 3 && !Trapped(prg, i)
    ensures Patch(prg, i) == [0x20, prg[i + 1], prg[i + 2]]
  {
    assert Lookup(0x20) == Op(JSR, Abs);
  }

  lemma OneRoutine(prg: seq<byte>, counts: seq<int>, i: nat)
    requires |counts| == |prg| && CallsPattern(prg, counts, CONTROLLER, i)
    ensures !CallsPattern(prg, counts, DISPATCH, i)
  {
    PatternsExclude(prg, counts, FixedOffset(OperandAt(prg, i)));
  }

  lemma WrapperLabelled(prg: seq<byte>, counts: seq<int>, opts: Options, controller: bool, i: nat)
    requires |counts| == |prg| && opts.direct && (if controller then opts.controller else opts.dispatch)
    requires CallsPattern(prg, counts, Pattern(controller), i) && Fits(prg, i) && !Trapped(prg, i)
    ensures CallLabel(prg, counts, opts, i) == Some(WrapperLabel(controller, OperandAt(prg, i)))
  {
    if CallsPattern(prg, counts, CONTROLLER, i) {
      OneRoutine(prg, counts, i);
    }
  }

  lemma WrapperCarries(prg: seq<byte>, counts: seq<int>, opts: Options, controller: bool, i: nat)
    requires |counts| == |prg| && opts.direct && (if controller then opts.controller else opts.dispatch)
    requires CallsPattern(prg, counts, Pattern(controller), i)
    ensures i + 3 <= |prg| && Carries(prg, counts, opts, WrapperSite(prg, controller, i))
  {
    JsrStaysPlain(prg, i);
    WrapperLabelled(prg, counts, opts, controller, i);
    assert i in BaseLayout(prg, counts, opts);
  }

  /** Each call site is a start whose label is the one Final gives it, and each
      labelled start is a call site. */
  ghost predicate CallsAreLabels(prg: seq<byte>, counts: seq<int>, opts: Options, calls: seq<CallSite>) {
    && |counts| == |prg|
    && (forall k {:trigger calls[k]} :: 0 <= k < |calls| ==>
          Start(counts, calls[k].at) && Fits(prg, calls[k].at)
          && CallLabel(prg, counts, opts, calls[k].at) == Some(calls[k].symbol))
    && (forall i: nat {:trigger Start(counts, i)} :: Start(counts, i) && Fits(prg, i) && CallLabel(prg, counts, opts, i).Some? ==>
          exists k :: 0 <= k < |calls| && calls[k].at == i)
  }

  lemma AllResidentExactly(prg: seq<byte>, counts: seq<int>, opts: Options, symbols: Symbols, calls: seq<CallSite>)
    requires CallsAreLabels(prg, counts, opts, calls)
    ensures AllResident(calls, symbols) <==> LabelsResident(prg, counts, opts, symbols)
  {
  }

  lemma RetargetedIsFinalAt(prg: seq<byte>, counts: seq<int>, opts: Options, symbols: Symbols, calls: seq<CallSite>, i: nat)
    requires CallsAreLabels(prg, counts, opts, calls) && Apart(calls)
    requires AllResident(calls, symbols) && LabelsResident(prg, counts, opts, symbols)
    requires i < |prg| && Start(counts, i) && Fits(prg, i)
    ensures i in Retargeted(BaseLayout(prg, counts, opts), calls, symbols)
    ensures Retargeted(BaseLayout(prg, counts, opts), calls, symbols)[i] == Final(prg, counts, opts, symbols, i)
  {
    RetargetedAt(BaseLayout(prg, counts, opts), calls, symbols);
    assert i in BaseLayout(prg, counts, opts);
    if CallLabel(prg, counts, opts, i).Some? {
      var k :| 0 <= k < |calls| && calls[k].at == i;
    }
  }

  lemma RetargetedKeys(prg: seq<byte>, counts: seq<int>, opts: Options, symbols: Symbols, calls: seq<CallSite>, i: nat)
    requires CallsAreLabels(prg, counts, opts, calls) && Apart(calls) && AllResident(calls, symbols)
    requires i in Retargeted(BaseLayout(prg, counts, opts), calls, symbols)
    ensures i < |prg| && Start(counts, i) && Fits(prg, i)
  {
    RetargetedAt(BaseLayout(prg, counts, opts), calls, symbols);
  }

  /** Rewriting call site after call site gives what Final defines start by start. */
  lemma RetargetedIsFinal(prg: seq<byte>, counts: seq<int>, opts: Options, symbols: Symbols, calls: seq<CallSite>)
    requires CallsAreLabels(prg, counts, opts, calls) && Apart(calls)
    requires AllResident(calls, symbols) && LabelsResident(prg, counts, opts, symbols)
    ensures Retargeted(BaseLayout(prg, counts, opts), calls, symbols) == FinalLayout(prg, counts, opts, symbols)
  {
    hide Retargeted, BaseLayout, Final, CallLabel, AllResident, LabelsResident, Apart, Opcodes.Lookup;
    var r := Retargeted(BaseLayout(prg, counts, opts), calls, symbols);
    var final := FinalLayout(prg, counts, opts, symbols);
    forall i | i in r ensures i in final {
      RetargetedKeys(prg, counts, opts, symbols, calls, i);
    }
    forall i | i in final ensures i in r && r[i] == final[i] {
      RetargetedIsFinalAt(prg, counts, opts, symbols, calls, i);
    }
  }

  lemma {:induction false} CalledInTurn(code: seq<byte>, first: seq<CallSite>, second: seq<CallSite>, symbols: Symbols)
    requires Within(first, |code|) && Within(second, |code|)
    ensures Within(first + second, |code|)
    ensures Called(code, first + second, symbols)
      == match Called(code, first, symbols) case Err(e) => Err(e) case Ok(c) => Called(c, second, symbols)
    decreases |second|
  {
    if second == [] {
      assert first + second == first;
    } else {
      var before := second[..|second| - 1];
      assert (first + second)[..|first + second| - 1] == first + before;
      CalledInTurn(code, first, before, symbols);
    }
  }

  ghost predicate AllCarry(prg: seq<byte>, counts: seq<int>, opts: Options, calls: seq<CallSite>) {
    && (forall k {:trigger calls[k]} :: 0 <= k < |calls| ==> Carries(prg, counts, opts, calls[k]))
    && Apart(calls)
  }

  predicate SameFamily(a: Label, b: Label) {
    (a.Direct? && b.Direct?) || (a.Controller? && b.Controller?) || (a.Dispatch? && b.Dispatch?)
  }

  /** Calls of different families never share a site: a start has one label. */
  lemma FamiliesJoin(prg: seq<byte>, counts: seq<int>, opts: Options, first: seq<CallSite>, second: seq<CallSite>)
    requires AllCarry(prg, counts, opts, first) && AllCarry(prg, counts, opts, second)
    requires forall k, l :: 0 <= k < |first| && 0 <= l < |second| ==> !SameFamily(first[k].symbol, second[l].symbol)
    ensures AllCarry(prg, counts, opts, first + second)
  {
    var both := first + second;
    forall k, l | 0 <= k < l < |both| ensures both[k].at != both[l].at {
      if k < |first| <= l {
        assert Carries(prg, counts, opts, first[k]) && Carries(prg, counts, opts, second[l - |first|]);
        assert !SameFamily(first[k].symbol, second[l - |first|].symbol);
      } else if l < |first| {
        assert first[k].at != first[l].at;
      } else {
        assert second[k - |first|].at != second[l - |first|].at;
      }
    }
  }

  lemma VeneersCarry(prg: seq<byte>, counts: seq<int>, opts: Options, remaining: seq<nat>, calls: seq<CallSite>)
    requires |counts| == |prg| && opts.direct && PlannedVeneers(prg, opts, remaining, calls)
    requires forall i: nat :: i in remaining <==> TrapSite(prg, counts, i) && !MadeSafe(prg, opts, i)
    ensures AllCarry(prg, counts, opts, calls)
    ensures forall k :: 0 <= k < |calls| ==> calls[k].symbol.Direct?
    ensures forall i: nat {:trigger Start(counts, i)} :: Start(counts, i) && Fits(prg, i) && HasVeneer(prg, opts, i) ==>
      exists k :: 0 <= k < |calls| && calls[k].at == i
  {
    forall k {:trigger calls[k]} | 0 <= k < |calls| ensures Carries(prg, counts, opts, calls[k]) {
      VeneerCarries(prg, counts, opts, calls[k].at);
    }
    forall i: nat | Start(counts, i) && Fits(prg, i) && HasVeneer(prg, opts, i)
      ensures exists k :: 0 <= k < |calls| && calls[k].at == i
    {
      assert i in remaining;
    }
  }

  lemma WrappersCarry(prg: seq<byte>, counts: seq<int>, opts: Options, controller: bool, calls: seq<CallSite>)
    requires |counts| == |prg| && opts.direct && (if controller then opts.controller else opts.dispatch)
    requires PlannedCalls(prg, counts, controller, calls, |prg|)
    ensures AllCarry(prg, counts, opts, calls)
    ensures forall k :: 0 <= k < |calls| ==> if controller then calls[k].symbol.Controller? else calls[k].symbol.Dispatch?
  {
    forall k {:trigger calls[k]} | 0 <= k < |calls| ensures Carries(prg, counts, opts, calls[k]) {
      WrapperCarries(prg, counts, opts, controller, calls[k].at);
    }
  }

  ghost predicate Finds(calls: seq<CallSite>, i: nat) {
    exists k :: 0 <= k < |calls| && calls[k].at == i
  }

  lemma FindsIn(first: seq<CallSite>, second: seq<CallSite>, i: nat)
    ensures Finds(first + second, i) <==> Finds(first, i) || Finds(second, i)
  {
    if Finds(first, i) {
      var k :| 0 <= k < |first| && first[k].at == i;
      assert (first + second)[k].at == i;
    }
    if Finds(second, i) {
      var k :| 0 <= k < |second| && second[k].at == i;
      assert (first + second)[|first| + k].at == i;
    }
  }

  /** The lists the planners return for the given options. */
  ghost predicate Plans(prg: seq<byte>, counts: seq<int>, opts: Options, remaining: seq<nat>,
                        veneers: seq<CallSite>, controllers: seq<CallSite>, dispatchers: seq<CallSite>) {
    && |counts| == |prg|
    && (forall i: nat :: i in remaining <==> TrapSite(prg, counts, i) && !MadeSafe(prg, opts, i))
    && (if opts.direct then PlannedVeneers(prg, opts, remaining, veneers) else veneers == [])
    && (if opts.direct && opts.controller then PlannedCalls(prg, counts, true, controllers, |prg|) else controllers == [])
    && (if opts.direct && opts.dispatch then PlannedCalls(prg, counts, false, dispatchers, |prg|) else dispatchers == [])
  }

  lemma PlansCarry(prg: seq<byte>, counts: seq<int>, opts: Options, remaining: seq<nat>,
                   veneers: seq<CallSite>, controllers: seq<CallSite>, dispatchers: seq<CallSite>)
    requires Plans(prg, counts, opts, remaining, veneers, controllers, dispatchers)
    ensures AllCarry(prg, counts, opts, veneers + controllers + dispatchers)
  {
    hide Opcodes.Lookup, HasVeneer, BaseLayout, CallLabel, CallPatterns.CallsPattern;
    if opts.direct {
      VeneersCarry(prg, counts, opts, remaining, veneers);
      if opts.controller {
        WrappersCarry(prg, counts, opts, true, controllers);
      }
      if opts.dispatch {
        WrappersCarry(prg, counts, opts, false, dispatchers);
      }
    }
    FamiliesJoin(prg, counts, opts, veneers, controllers);
    FamiliesJoin(prg, counts, opts, veneers + controllers, dispatchers);
  }

  lemma PlansFind(prg: seq<byte>, counts: seq<int>, opts: Options, remaining: seq<nat>,
                  veneers: seq<CallSite>, controllers: seq<CallSite>, dispatchers: seq<CallSite>, i: nat)
    requires Plans(prg, counts, opts, remaining, veneers, controllers, dispatchers)
    requires Start(counts, i) && Fits(prg, i) && CallLabel(prg, counts, opts, i).Some?
    ensures Finds(veneers + controllers + dispatchers, i)
  {
    FindsIn(veneers, controllers, i);
    FindsIn(veneers + controllers, dispatchers, i);
    if HasVeneer(prg, opts, i) {
      VeneersCarry(prg, counts, opts, remaining, veneers);
      assert Finds(veneers, i);
    } else if opts.controller && CallsPattern(prg, counts, CONTROLLER, i) {
      assert CallsPattern(prg, counts, Pattern(true), i);
      assert Finds(controllers, i);
    } else {
      assert CallsPattern(prg, counts, Pattern(false), i);
      assert Finds(dispatchers, i);
    }
  }

  /** What the three planners return together is exactly the labelled starts. */
  lemma PlansAreLabels(prg: seq<byte>, counts: seq<int>, opts: Options, remaining: seq<nat>,
                       veneers: seq<CallSite>, controllers: seq<CallSite>, dispatchers: seq<CallSite>)
    requires Plans(prg, counts, opts, remaining, veneers, controllers, dispatchers)
    ensures CallsAreLabels(prg, counts, opts, veneers + controllers + dispatchers)
  {
    PlansCarry(prg, counts, opts, remaining, veneers, controllers, dispatchers);
    var calls := veneers + controllers + dispatchers;
    forall i: nat | Start(counts, i) && Fits(prg, i) && CallLabel(prg, counts, opts, i).Some?
      ensures exists k :: 0 <= k < |calls| && calls[k].at == i
    {
      PlansFind(prg, counts, opts, remaining, veneers, controllers, dispatchers, i);
      assert Finds(calls, i);
    }
  }

  datatype Failure =
    | UnsupportedCartridge
    | ExpansionFailed(expansion: NativeCfg.Error)
    | ClassificationFailed(classification: BuildNative.Error)
    | SubstitutionFailed(substitution: NativeSafe.Error)
    | CallFailed(call: CallError)

  datatype Built =
    | Failed(failure: Failure)
    | Built(counts: seq<int>, base: seq<byte>, code: seq<byte>)

  /** The refusals that depend on the traced program or on the linked symbols. */
  predicate Genuine(failure: Failure) {
    match failure
    case UnsupportedCartridge => true
    case ExpansionFailed(_) => true
    case ClassificationFailed(e) => e.StackTransfer? || e.NeedsTranslation? || e.IndirectPageWrap?
    case SubstitutionFailed(_) => false
    case CallFailed(e) => e.MissingLabel? || e.OutsideWram?
  }

  /** After expansion, no start can be unknown, cut off or overlapped. */
  lemma RefusalOnCodeMap(prg: seq<byte>, counts: seq<int>, i: nat)
    requires CodeMap(prg, counts) && Start(counts, i) && Refusal(prg, counts, i).Some?
    ensures Genuine(ClassificationFailed(Refusal(prg, counts, i).value))
  {
    CodeMapIsAlone(prg, counts, i);
  }

  /** The safe pass on the classified code, or nothing when it is switched off. */
  method ApplySafe(prg: seq<byte>, counts: seq<int>, opts: Options, code: seq<byte>, sites: seq<nat>)
    returns (base: seq<byte>, remaining: seq<nat>, error: Option<NativeSafe.Error>)
    requires |counts| == |code| == |prg| && TrapSites(prg, counts, sites, |prg|)
    requires Realises(Classification(prg, counts), code)
    ensures error.None? && Realises(BaseLayout(prg, counts, opts), base) && |base| == |prg|
    ensures Ascending(remaining) && NativeSafe.Sites(prg, remaining)
    ensures forall i: nat :: i in remaining <==> TrapSite(prg, counts, i) && !MadeSafe(prg, opts, i)
  {
    BaseIsSubstitutions(prg, counts, opts, sites);
    error := None;
    if !opts.safeAddresses {
      return code, sites, None;
    }
    NativeSafe.ApplyingRealises(prg, counts, code, sites);
    NativeSafe.ApplyingSplits(prg, code, sites);
    var r := NativeSafe.Apply(prg, code, sites);
    match r
    case Aborted(e) => return code, sites, Some(e);
    case Applied(out, proven, rest) => return out, rest, None;
  }

  /** The three call passes one after the other behave like one pass over all sites. */
  method ApplyCalls(base: seq<byte>, veneers: seq<CallSite>, controllers: seq<CallSite>, dispatchers: seq<CallSite>,
                    symbols: Symbols) returns (r: Result<seq<byte>, CallError>)
    requires Within(veneers, |base|) && Within(controllers, |base|) && Within(dispatchers, |base|)
    ensures Within(veneers + controllers + dispatchers, |base|)
    ensures r == Called(base, veneers + controllers + dispatchers, symbols)
  {
    CalledInTurn(base, veneers, controllers, symbols);
    CalledInTurn(base, veneers + controllers, dispatchers, symbols);
    r := DirectCalls.Apply(base, veneers, symbols);
    if r.Ok? {
      r := DirectCalls.Apply(r.value, controllers, symbols);
    }
    if r.Ok? {
      r := DirectCalls.Apply(r.value, dispatchers, symbols);
    }
  }

  lemma CarriedIsCurrent(prg: seq<byte>, counts: seq<int>, opts: Options, base: seq<byte>, calls: seq<CallSite>)
    requires |counts| == |prg| && AllCarry(prg, counts, opts, calls) && Placed(BaseLayout(prg, counts, opts), base)
    ensures Current(BaseLayout(prg, counts, opts), calls) && Within(calls, |base|)
  {
    forall k {:trigger calls[k]} | 0 <= k < |calls| ensures calls[k].at + 3 <= |base| {
      assert Carries(prg, counts, opts, calls[k]);
    }
  }

  method PlanWrappers(prg: seq<byte>, counts: seq<int>, enabled: bool, controller: bool) returns (calls: seq<CallSite>)
    requires |prg| == |counts| == 0x40000
    ensures if enabled then PlannedCalls(prg, counts, controller, calls, |prg|) else calls == []
  {
    calls := [];
    if enabled {
      var plan := CallPatterns.Plan(prg, counts, controller);
      calls := plan.sites;
    }
  }

  lemma WithinParts(first: seq<CallSite>, second: seq<CallSite>, size: nat)
    requires Within(first + second, size)
    ensures Within(first, size) && Within(second, size)
  {
    forall k {:trigger first[k]} | 0 <= k < |first| ensures first[k].at + 3 <= size {
      assert (first + second)[k] == first[k];
    }
    forall k {:trigger second[k]} | 0 <= k < |second| ensures second[k].at + 3 <= size {
      assert (first + second)[|first| + k] == second[k];
    }
  }

  /** Plans and writes every call into the base code. */
  method WriteCalls(prg: seq<byte>, counts: seq<int>, opts: Options, symbols: Symbols, base: seq<byte>, remaining: seq<nat>)
    returns (r: Result<seq<byte>, CallError>)
    requires |prg| == |counts| == 0x40000 && Realises(BaseLayout(prg, counts, opts), base)
    requires Ascending(remaining) && NativeSafe.Sites(prg, remaining)
    requires forall i: nat :: i in remaining <==> TrapSite(prg, counts, i) && !MadeSafe(prg, opts, i)
    ensures r.Ok? <==> LabelsResident(prg, counts, opts, symbols)
    ensures r.Ok? ==> Realises(FinalLayout(prg, counts, opts, symbols), r.value)
    ensures r != Err(NotClassified)
  {
    var veneers: seq<CallSite> := [];
    if opts.direct {
      veneers := PlanVeneers(prg, opts, remaining);
    }
    var controllers := PlanWrappers(prg, counts, opts.direct && opts.controller, true);
    var dispatchers := PlanWrappers(prg, counts, opts.direct && opts.dispatch, false);
    ghost var calls := veneers + controllers + dispatchers;
    PlansCarry(prg, counts, opts, remaining, veneers, controllers, dispatchers);
    PlansAreLabels(prg, counts, opts, remaining, veneers, controllers, dispatchers);
    CarriedIsCurrent(prg, counts, opts, base, calls);
    WithinParts(veneers + controllers, dispatchers, |base|);
    WithinParts(veneers, controllers, |base|);
    r := ApplyCalls(base, veneers, controllers, dispatchers, symbols);
    OnlyLabelsFail(BaseLayout(prg, counts, opts), base, calls, symbols);
    AllResidentExactly(prg, counts, opts, symbols, calls);
    if r.Ok? {
      CalledRealises(BaseLayout(prg, counts, opts), base, calls, symbols);
      RetargetedIsFinal(prg, counts, opts, symbols, calls);
    }
  }

  method ClassifyMap(prg: seq<byte>, counts: seq<int>) returns (c: BuildNative.Outcome)
    requires CodeMap(prg, counts)
    ensures c.Refused? ==> Genuine(ClassificationFailed(c.error)) && !Acceptable(prg, counts, |prg|)
    ensures c.Classified? ==>
      && |c.code| == |prg|
      && TrapSites(prg, counts, c.sites, |prg|)
      && Realises(Classification(prg, counts), c.code)
  {
    c := ClassifyPatch(prg, counts);
    match c
    case Refused(e) =>
      ghost var i: nat :| Start(counts, i) && Refusal(prg, counts, i) == Some(e);
      RefusalOnCodeMap(prg, counts, i);
    case Classified(code, _, _) =>
      ClassificationRealises(prg, counts, code);
  }

  /** The passes over a given code map. */
  method Rewrite(prg: seq<byte>, counts: seq<int>, opts: Options, symbols: Symbols) returns (r: Built)
    requires |prg| == 0x40000 && CodeMap(prg, counts)
    ensures r.Failed? ==> Genuine(r.failure)
    ensures r.Failed? ==> match r.failure
      case ClassificationFailed(_) => !Acceptable(prg, counts, |prg|)
      case CallFailed(_) => !LabelsResident(prg, counts, opts, symbols)
      case _ => false
    ensures r.Built? ==>
      && r.counts == counts
      && LabelsResident(prg, counts, opts, symbols)
      && Realises(BaseLayout(prg, counts, opts), r.base)
      && Realises(FinalLayout(prg, counts, opts, symbols), r.code)
  {
    var c := ClassifyMap(prg, counts);
    if c.Refused? {
      return Failed(ClassificationFailed(c.error));
    }
    var base, remaining, error := ApplySafe(prg, counts, opts, c.code, c.sites);
    match error {
      case Some(e) => return Failed(SubstitutionFailed(e));
      case None =>
    }
    var called := WriteCalls(prg, counts, opts, symbols, base, remaining);
    if called.Err? {
      return Failed(CallFailed(called.error));
    }
    r := Built(counts, base, called.value);
  }

  ghost predicate Expands(prg: seq<byte>, counts: seq<nat>, pcs: seq<word>, pcs': seq<word>, x: NativeCfg.Outcome) {
    x.Expanded? && |counts| == |pcs| == |pcs'| == |prg| && IsExpansion(prg, counts, pcs, pcs', x)
  }

  /** The mapper and the ROM sizes that the bridge takes. */
  predicate Supported(mapper: nat, prgSize: nat, chrSize: nat) {
    mapper == 5 && prgSize == 0x40000 && chrSize == 0x20000
  }

  /** The whole chain. It fails only for the cartridge, the trace, an instruction
      that needs its own translation, or a symbol; when it succeeds, the code is
      what Final defines at each start, and traps elsewhere. */
  method Translate(mapper: nat, prg: seq<byte>, chr: seq<byte>, counts: seq<nat>, pcs: array<word>, opts: Options,
                   symbols: Symbols) returns (r: Built)
    requires |counts| == pcs.Length == 0x40000
    modifies pcs
    ensures r.Failed? ==> Genuine(r.failure)
    ensures r == Failed(UnsupportedCartridge) <==> mapper != 5 || |prg| != 0x40000 || |chr| != 0x20000
    ensures mapper == 5 && |prg| == 0x40000 && |chr| == 0x20000 ==> (r.Failed? && r.failure.ExpansionFailed? <==> !ObservedLegal(prg, counts))
    ensures r.Failed? && r.failure.ClassificationFailed? ==>
      exists x :: Expands(prg, counts, old(pcs[..]), pcs[..], x) && !Acceptable(prg, x.counts, |prg|)
    ensures r.Failed? && r.failure.CallFailed? ==>
      exists x :: Expands(prg, counts, old(pcs[..]), pcs[..], x) && !LabelsResident(prg, x.counts, opts, symbols)
    ensures r.Built? ==>
      && |prg| == 0x40000
      && (exists x :: Expands(prg, counts, old(pcs[..]), pcs[..], x) && x.counts == r.counts)
      && LabelsResident(prg, r.counts, opts, symbols)
      && Realises(BaseLayout(prg, r.counts, opts), r.base)
      && Realises(FinalLayout(prg, r.counts, opts, symbols), r.code)
  {
    if !Supported(mapper, |prg|, |chr|) {
      return Failed(UnsupportedCartridge);
    }
    var x := Expand(prg, counts, pcs);
    if x.Illegal? {
      return Failed(ExpansionFailed(x.error));
    }
    assert Expands(prg, counts, old(pcs[..]), pcs[..], x);
    r := Rewrite(prg, x.counts, opts, symbols);
  }
}
