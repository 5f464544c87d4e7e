# Nes2Snes: static translation, guest timeline, audio counters

Nes2Snes turns a NES program into a 65C816 image and accounts for how it runs. This project models five parts of it
and proves what they are for.

* **Static translation.** A worklist grows the traced code map along direct control flow (`NativeCfg`). Classification
  writes the executable copy, with a COP trap wherever an access cannot be left to the 65C816 (`BuildNative`). Safe
  substitutions take some traps back (`NativeSafe`, `NativeAddress`), and veneer calls replace others (`DirectCalls`,
  `CallPatterns`). `Pipeline` runs the passes in order and compares the result with a one-step definition of the final
  bytes; `NativeMeaning` says what those bytes do to each memory access. The program is then laid out as 32 images chosen
  by a SLOT byte (`BankImages`), which a bank-selector veneer changes while it runs (`Veneer`,
  instruction by instruction on the 65C816, whose 8-bit arithmetic is in `HostArithmetic`).
* **Guest timeline.** Instructions are charged (`GuestCycles`), executed and retired; due events are consumed; an
  interrupt may be entered (`InterruptBoundary`, `GuestMachine`, and the object `GuestTimeline`). `GuestSafety` and
  `GuestBrackets` hold the results over whole runs, `GuestWindow` ties runs to the window checker, and `TimelineProbe`
  with `ProbeAgreement` model the probe that records a run in an emulator.
* **Audio counters.** `ApuModel` and the object `ApuCounters`; `ApuSweep` and `SweepCounters` add the pulse sweep, whose
  half clock also replaces the one that a $4017 write or a frame causes. Closed forms and run laws are in `ApuClocks`.
* **Assembler and decoder.** `NativeFixture` assembles with labels and fixups, `TimelineDecode` cuts code into
  instructions, and `FixtureRoundTrip` relates them.
* **Three agreements.** The two sprite encoders (`Sprites`), the bounded observer and its checker (`IdleObserver`), the
  cartridge image finalizer and its validator (`RomImage`).

The functions these theorems are stated with are pinned by accounts that do not use them: the opcode table by its bit
structure (`OpcodeStructure`), the cycle tables by counting bus accesses (`BusCycles`), branches and costs by opcode bits
(`GuestBranches`), the control instructions by bytes (`GuestEffects`), the code map by execution and by the bank mappings
(`ControlFlow`), the veneer calls by region (`VeneerCalls`), the recognized routines by offset and opcode
(`RoutineBytes`), the mapper rule in all its modes (`MapperRule`), the decoder's contract by address
(`TimelineAdmission`), the sound of a voice by its registers (`ApuVolume`), and the object table by the lines it draws
(`SpriteRows`).

Code that updates objects or buffers is modelled by classes and methods; each method is proved equal to a pure
transition function, and the properties are proved about those functions. Registers, ALU results, memory contents, event
lists, symbol tables and traces are parameters, so the theorems hold for all of them.

## Where the code meets its promise only under a condition

* The bank veneer adds SLOT up to its two bank numbers without clearing the host's D flag. The classifier refuses SED but
  leaves PLP native (`NativeMeaning.PullStaysNative`), so the guest can enter the veneer with D set, and both additions
  are then decimal. An admitted store does what it means, and the veneer returns into the bank it selects, if and only if
  D is clear (`BankImages.ExecutedExactly`, `Veneer.BankVeneer`); `BankImages.DecimalSelectsWrongBank` is an input with D
  set that leaves for bank $01 instead of $A1.
* The bank veneer ignores bit 7 of $5115 and $5116, so it admits stores that select RAM in the mapper rule
  (`BankImages.AdmitsRamSelection`). The rule names program ROM at every address if and only if the last values of both
  registers have bit 7 set (`BankImages.ProgramEverywhere`), and the image is right wherever it names ROM.
* A completion reported to the timeline probe with a time before an event it has already delivered miscounts the next row
  (`TimelineProbe.RepeatedCompletionMiscounts`). A completion keeps the rows in agreement if and only if no delivered
  event lies after it (`TimelineProbe.CompletedIsValid`); a clock that never goes back is enough.
* The assembler takes a label as the operand of an instruction whose operand has fewer than two bytes and is no branch.
  The code it then finishes cannot decode to what was written. The round trip holds if and only if every label stands in
  an operand that can hold it, the code fits the cartridge window and every instruction and target is admitted
  (`FixtureRoundTrip.RoundTrip`);
  `FixtureRoundTrip.NarrowLabelIsLost` is a program for which it fails.
* A falling sweep of the second pulse that shifts by four or more never mutes its channel; every other falling sweep does
  (`ApuSweep.FallingChannelIsSilenced`).

## Model

| member | source | states |
|---|---|---|
| Opcodes.Reverse | tools/native_fixture.py:18 | The assembler's inverse of the table finds an opcode for a name and mode exactly when some opcode has them |
| OpcodeStructure.TableIsStructured | tools/opcodes6502.py:2-24 | Every entry, and every gap, of the opcode table is what two group bits, three operation bits and three mode bits say |
| OpcodeStructure.TableIsInjective | tools/opcodes6502.py:25-28 | No two opcodes share a name and a mode |
| OpcodeStructure.ReverseExactly | tools/native_fixture.py:18 | The assembler's index gives every documented opcode back |
| NativeCfg.ClaimObserved | tools/native_cfg.py:11-18 | Claiming the traced bytes fails exactly when a traced instruction is unknown, cut off or overlaps another |
| NativeCfg.StepKeepsInvariant | tools/native_cfg.py:35-53 | Every worklist iteration keeps the invariant: byte ranges are disjoint, traced starts and their addresses stay, each processed start is decided and its successors queued, each entry is reached from an earlier start |
| NativeCfg.StepProgress | tools/native_cfg.py:35-38 | Every iteration processes one more offset or shortens the queue, so the worklist ends |
| NativeCfg.FinishedIsClosed | tools/native_cfg.py:23-56 | With an empty queue every direct successor is unresolved, out of range, a start, or was barred by an unknown, BRK or SED opcode, by truncation or by overlap |
| NativeCfg.Expand | tools/native_cfg.py:10-58 | Expansion fails exactly on an illegal trace; else the result is a code map that keeps every traced start and address, is closed, and every inferred start follows from an earlier one |
| ControlFlow.TargetsAreFlow | tools/native_cfg.py:47-53 | The addresses queued for an instruction are exactly those that some state executes to, for all but calls and computed jumps |
| ControlFlow.CallTargets | tools/native_cfg.py:51-53 | A call goes to its operand and queues it, and also the next instruction unless the target is not to return |
| ControlFlow.ComputedTargets | tools/native_cfg.py:47-52 | Nothing is queued after RTS, RTI and the indirect JMP |
| ControlFlow.NoReturnExactly | tools/native_cfg.py:19-20 | A target is not to return exactly when some traced JSR to it has an untraced return site |
| ControlFlow.LiveExactly | tools/native_cfg.py:39-42 | Exactly the documented complete instructions other than opcodes $00 and $F8 are followed |
| ControlFlow.FlowStaysMapped | tools/native_cfg.py:35-56 | From every mapped start any executed instruction leads to a mapped start, a reported edge, out of the program, or to a refused place |
| ControlFlow.InferredIsReached | tools/native_cfg.py:42-55 | Every inferred start is where some state goes from a traced or earlier inferred start, or where a call returns to, at its mapped address |
| ControlFlow.OthersStay | tools/native_cfg.py:42-55 | No other start is added and no other address changed |
| ControlFlow.UnresolvedIsReached | tools/native_cfg.py:30-33 | Every reported edge leads from a start to where some state goes, or a call returns, under an unknown mapping |
| ControlFlow.BarredExactly | tools/native_cfg.py:40-46 | A refused place has no followed instruction, or shares a byte with another start |
| ControlFlow.PhysicalExactly | tools/native_cfg.py:23-29 | A target is given an offset exactly when every bank mapping under which the branch runs shows it there |
| ControlFlow.OnlyCartridgeIsMapped | tools/native_cfg.py:23-29 | No target below $8000 is given an offset, nor one below $E000 from outside the cartridge |
| BuildNative.ClassifyPatch | tools/build_native.py:31-59 | Accepts exactly when no start is refused, reports the first refusal, writes each start's patch and 0 everywhere else, and lists exactly the trap sites and replaced stack transfers in ascending order |
| BuildNative.CodeMapIsAlone | tools/build_native.py:38 | On an expanded map the overlap refusal cannot fire |
| NativeMeaning.RefusedExactly | tools/build_native.py:36-52 | By opcode: which classified instructions are refused, for what and in which order |
| CodeLayout.WriteRealises | tools/native_safe.py:48 | Overwriting one instruction with the same number of bytes changes only that instruction and keeps all ranges disjoint and the rest trapped |
| NativeSafe.Apply | tools/native_safe.py:30-51 | The in-place pass computes the state defined site by site and refuses a length mismatch |
| NativeMeaning.OperandFitsExactly | tools/native_safe.py:17-18 | The operands that fit an instruction of each length |
| NativeSafe.ApplyingSplits | tools/native_safe.py:35-51 | The sites split, in order, into those with a replacement and the others |
| NativeSafe.ApplyingRealises | tools/native_safe.py:45-48 | On a classification the pass never refuses, and rewrites exactly the sites that have a replacement |
| NativeAddress.IssuedExactlyWhenSound | tools/native_safe.py:11-27 | An access is left native with an operand if and only if, for every X and Y, the unwrapped native address lies in RAM or program memory and equals the NES address after mirroring; that operand is the only one |
| NativeMeaning.OperationsAreAccesses | tools/build_native.py:21-29 | The classifier's operations are exactly the documented accesses to memory: every opcode that names memory but JMP and JSR, and nothing without an operand |
| NativeMeaning.FinalAccess | tools/build_native.py:74-94 | In the final code every direct or indexed memory access keeps its opcode exactly when some operand makes it sound, and then holds that operand; without the safe pass, exactly when its own operand does and it is not zero-page indexed from 0; all others are a trap or a call |
| NativeMeaning.FinalIndirect | tools/build_native.py:41 | Every instruction through (zp,X) or (zp),Y ends as a trap |
| NativeMeaning.PullStaysNative | tools/build_native.py:36-56 | A classified PLP is never refused and stays native |
| NativeMeaning.FinalKeepsLength | tools/build_native.py:55-56 | No pass changes the length of a classified instruction |
| NativeMeaning.SubstitutionKeepsCost | tools/guest_cycles.py:59-83 | A substituted operand is charged the same cycles for all registers and flags |
| DirectCalls.Apply | tools/direct_calls.py:95-105 | The in-place pass computes the calls site by site and stops at the first refusal |
| DirectCalls.CalledRealises | tools/direct_calls.py:95-105 | With resident labels and current sites no refusal fires and every site becomes a call to its label |
| DirectCalls.OnlyLabelsFail | tools/direct_calls.py:98-103 | On current sites the pass succeeds exactly when every label lies in $1000-$17FF, and never for an unclassified site |
| VeneerCalls.HandlerExactly | tools/direct_calls.py:16-34 | Each bridge routine serves exactly its region of stores or loads |
| VeneerCalls.PlannedExactly | tools/direct_calls.py:41-56 | With the options, selectors go to the bank routine, sound registers to the counters, all else to the routine of its region |
| VeneerCalls.PlannedIsCalled | tools/direct_calls.py:44-58 | With veneers on, exactly the planned absolute accesses get their own call |
| VeneerCalls.CallsExactly | tools/native_controller.py:41-49 | A call stands for the access or the JSR that its label names |
| VeneerCalls.ResidentExactly | tools/direct_calls.py:98-100 | A label is resident exactly in $1000-$17FF |
| VeneerCalls.FinalCalls | tools/direct_calls.py:98-104 | Executed, the final bytes of a call go to its label in $1000-$17FF and stack the address of their last byte |
| CallPatterns.ComputeMatches | tools/native_controller.py:23-34 | The scanning loop decides whether classified code reads as the pattern, instruction after instruction |
| CallPatterns.PatternsExclude | tools/native_dispatch.py:17-32 | No routine matches both patterns |
| RoutineBytes.ControllerRoutine | tools/native_controller.py:11-34 | A matched controller routine is a strobe and eight rounds of both ports, by offset and opcode, and its branch goes back to the first read |
| RoutineBytes.DispatchRoutine | tools/native_dispatch.py:8-32 | A matched dispatch routine takes the table address from the stack and jumps through the word that A selects |
| RoutineBytes.FixedIsShown | tools/native_controller.py:44-46 | A routine is looked for where every bank mapping shows its address |
| CallPatterns.Plan | tools/native_controller.py:37-59 | Plans exactly the classified JSRs into the fixed bank whose target matches, in ascending order |
| Pipeline.RetargetedIsFinal | tools/build_native.py:140-142 | Writing the calls one after another gives the one-step definition of the final layout |
| Pipeline.CalledInTurn | tools/build_native.py:140-142 | The call passes in turn behave as one pass over the joined sites |
| Pipeline.PlansAreLabels | tools/build_native.py:92-94 | The three planners together list exactly the starts that have a call, each with its label |
| Pipeline.PlansCarry | tools/build_native.py:92-94 | Planned sites are pairwise distinct three-byte starts that still read as their pass expects |
| Pipeline.ApplySafe | tools/build_native.py:76-79 | The safe pass never fails and leaves exactly the other trap sites |
| Pipeline.WriteCalls | tools/build_native.py:140-142 | The calls are written exactly when every label is resident; no site check can fail |
| Pipeline.Translate | tools/build_native.py:67-142 | The whole chain fails only for the mapper and ROM sizes, the trace, an instruction that needs its own translation or a symbol; else each classified start holds its final bytes and every other byte is 0 |
| BankImages.BuildImages | tools/build_native.py:143-151 | 32 raw and 32 executable images, where the executable image of slot 31 holds the code without calls |
| BankImages.ImageShows | tools/build_native.py:150 | At every address an image shows the byte of the bank its slot stands for |
| MapperRule.SlotsExactly | tools/mmc5_timeline.py:19-35 | The mapper rule in all modes and sizes: which are refused, and the four banks by remainder and pairs |
| BankImages.ExecutedExactly | tools/direct_calls.py:122-138 | From any state a store is admitted as it is meant; banks and state come out as meant if and only if D is clear |
| BankImages.DecimalSelectsWrongBank | tools/direct_calls.py:137-138 | A concrete store with D set that leaves code bank $01 instead of $A1 |
| BankImages.RunIsConsistent | tools/direct_calls.py:120-138 | After any admitted stores SLOT agrees with the stored registers; the code bank agrees with SLOT exactly when the last store found D clear, the raw bank also while the low digit does not carry |
| BankImages.ShownFollowsMapper | tools/mmc5_timeline.py:19-35 | After any admitted stores the image of SLOT shows, at each address, the offset of the bank the mapper rule names in mode 2, exactly where it names ROM |
| BankImages.ImageFollowsMapper | tools/build_native.py:143-151 | After any admitted stores, the last with D clear, reading through RAWBANK gives the program byte of the bank the mapper rule names, wherever it names ROM, and CODEBANK the translated byte there |
| BankImages.ProgramEverywhere | tools/direct_calls.py:122-136 | The rule names ROM at every address if and only if the last values of $5115 and $5116 have bit 7 |
| BankImages.AdmitsRamSelection | tools/direct_calls.py:122-125 | A store with bit 7 clear that the veneer admits although the rule selects RAM |
| Veneer.Bridge.SelectBank | tools/direct_calls.py:122-138 | The masks, shifts, comparisons and additions of the selector code perform the store in the mode of D, or change no bank variable |
| Veneer.StoredByName | tools/direct_calls.py:120-121 | STA, STX and STY store A, X and Y |
| Veneer.BankVeneer | tools/direct_calls.py:108-150 | The veneer returns at the byte after the call, with A, B, X, Y, P and the caller's stack as before; it returns into the meant code bank, with the bridge as meant, if and only if D was clear |
| GuestCycles.CostFailsExactly | tools/guest_cycles.py:59-83 | The cost exists exactly for documented opcodes with a fitting operand and, for indirect Y reads, a pointer |
| GuestCycles.Cost | tools/guest_cycles.py:59-83 | A cost lies between 2 and 7 cycles |
| GuestCycles.Cycles | tools/guest_cycles.py:140 | n instructions take between 2n and 7n cycles |
| BusCycles.TablesCountAccesses | tools/guest_cycles.py:12-41 | The base cycles of every documented opcode are its bus accesses, and the adjustment is that of an indexed read or a branch |
| GuestBranches.TakenByBit | tools/guest_cycles.py:17-20 | A branch is taken exactly when the status bit chosen by opcode / 64 has the value of opcode bit 5 |
| GuestBranches.BranchExecutes | tools/timeline_program.py:211-213 | A branch changes the program counter alone, to its landing address or the next instruction |
| GuestBranches.CostExactly | tools/guest_cycles.py:59-83 | The cost of every documented instruction is its bus accesses, plus one for a carrying read index or a taken branch, two across a page |
| GuestCycles.WindowCloses | tools/guest_cycles.py:140-143 | In an accepted window the instruction cycles plus seven for each entry are the last end minus the first start |
| GuestCycles.WindowIsOrdered | tools/guest_cycles.py:129-139 | Records of an accepted window are in order and never overlap |
| GuestCycles.WindowsCompose | tools/guest_cycles.py:115-140 | A concatenation is accepted exactly when both parts and their junction are |
| GuestCycles.TotalsCompose | tools/guest_cycles.py:114-148 | Cycles and entries add up across a junction, plus the entry at the junction |
| GuestCycles.AccountWindow | tools/guest_cycles.py:100-148 | Accepts exactly the windows whose records are explained and joined, totals them, and never reports that the ledger does not close |
| StatusRegister.UnpackPack | tools/timeline_program.py:218-238 | Pushing and pulling the status loses nothing |
| StatusRegister.PackUnpack | tools/timeline_program.py:226-233 | Every pulled byte is the status byte of what it is pulled into |
| StatusRegister.FlagsSplit | tools/timeline_program.py:345-374 | Loading gives the host exactly the guest's N, V, Z and C over fixed other bits; saving brings exactly those four back |
| StatusRegister.LoadThenSave | tools/timeline_program.py:345-374 | Loading and saving at once changes no status byte |
| GuestSafety.PlainSavesFlags | tools/timeline_program.py:209-210 | The status after a natively run instruction is what the driver's masks make of the old status and the host's flags |
| GuestEffects.MasksByOpcode | tools/timeline_program.py:215-217 | CLI and SEI change I alone |
| GuestEffects.DecimalsByOpcode | tools/timeline_program.py:215-217 | CLD and SED change D alone |
| GuestEffects.PushesByOpcode | tools/timeline_program.py:218-225 | PHA and PHP store A, or P with B and the unused bit set, at $0100 + S and lower S with 8-bit wrap |
| GuestEffects.PullsByOpcode | tools/timeline_program.py:226-231 | PLA and PLP take the byte above S; PLA sets N and Z |
| GuestEffects.TransfersByOpcode | tools/timeline_program.py:237-238 | TSX sets N and Z, TXS no flag |
| GuestEffects.CallByOpcode | tools/timeline_program.py:220-225 | JSR stores the high then the low byte of pc + 2 and goes to its operand |
| GuestEffects.ReturnsByOpcode | tools/timeline_program.py:226-236 | RTS goes on after the stacked address; RTI takes the status and then the address as it is |
| GuestEffects.JumpsByOpcode | tools/timeline_program.py:198-214 | JMP goes to its operand or through its pointer |
| GuestEffects.EntryByBytes | tools/interrupt_boundary.py:67-77 | An entry stores pc high, pc low and P with B clear at S and below, sets I and goes to its vector |
| GuestEffects.IrqEntersExactly | tools/interrupt_boundary.py:65-66 | An IRQ enters exactly when raised without NMI and under a clear I: that of before CLI, SEI and PLP, that of after all others |
| GuestEffects.SupportedExactly | tools/interrupt_boundary.py:12 | Every documented instruction but BRK may be followed by an entry |
| InterruptBoundary.Enter | tools/interrupt_boundary.py:46-78 | The returned 16 bytes describe the settled boundary with decision and cost: NMI first, then IRQ under the polled mask; the frame is pushed with 8-bit wrap, and without an entry nothing changes |
| InterruptBoundary.DescriptorRoundTrip | tools/interrupt_boundary.py:46-58 | The 16-byte layout loses no field |
| GuestSafety.ConsumeStops | tools/timeline_probe.h:80-84 | The event loop takes every due event and stops at the first later one; the line holds the last value, the latch any NMI |
| GuestSafety.ConsumeReaches | tools/timeline_probe.h:80-84 | The loop moves the cursor to the number of due events, unless it is already past them |
| GuestSafety.Ledger | snes/src/guest_timeline.inc:31-153 | On every run time grows by cost and entry, stays in 32 bits, and the cursor counts exactly the events due before the entry |
| GuestSafety.ClockTelescopes | snes/src/guest_timeline.inc:55-151 | The clock of a whole run is its start plus all costs and entries |
| GuestSafety.NmiEntries | tools/interrupt_boundary.py:65-73 | Every run enters NMI at exactly the boundaries that consumed an NMI event, and no request outlives its boundary |
| GuestSafety.IrqNeedsRelease | tools/interrupt_boundary.py:65-72 | No IRQ enters under a set polled mask; after any entry none does until an RTI, or a CLI or PLP with one more instruction, cleared I with no entry between |
| GuestBrackets.PageIsFull | tools/timeline_program.py:218-225 | The limit of 256 held bytes is sharp: one more push overwrites the deepest byte |
| GuestBrackets.RunHolds | tools/timeline_program.py:218-238 | On every bracketed run, where nothing stores into a held byte, the page holds the open frames, and S is as far below its start as they are long, from every S |
| GuestBrackets.OpenedBefore | tools/timeline_program.py:218-225 | Every open frame was opened by some earlier step, at its own depth |
| GuestBrackets.BracketEnds | tools/timeline_program.py:215-238 | Each closing instruction has a matching opening step, restores its S, and brings back its address (JSR: pc + 3), register, or P up to B and the unused bit |
| GuestBrackets.PushPullRuns | tools/timeline_program.py:218-230 | Bracketed runs exist: PHA and PLA from any state without requests form one and restore A and S |
| GuestTimeline.Timeline.StepOnce | snes/src/guest_timeline.inc:13-155 | The fields after one instruction are those of the step function; a fault after execution does not undo the instruction |
| GuestTimeline.Timeline.ConsumeDue | snes/src/guest_timeline.inc:66-98 | The event loop on the fields reaches the requests of the recursive definition |
| GuestTimeline.Timeline.CrossBoundary | snes/src/guest_timeline.inc:99-154 | The boundary decision and the entry on the fields are those of the descriptor routine |
| GuestWindow.RunIsAccepted | tools/guest_cycles.py:100-148 | Every run over cartridge addresses, recorded, is an accepted window |
| GuestWindow.WindowExactly | tools/guest_cycles.py:109-139 | The accepted windows by the fields of their records: flags, times, addresses, costs, and gaps of 0 or of 7 at a handler |
| GuestWindow.EntriesExactly | tools/guest_cycles.py:131-137 | The reported interrupts are exactly the gaps, with their record and kind |
| GuestTimeline.ValidateEvents | tools/timeline_program.py:24-33 | The loop admits exactly at most 64 events at strictly increasing cycles from 1 to $FFFFFF00 |
| TimelineProbe.NextRowIsExact | tools/timeline_probe.h:58-73 | Without an error no field of a new row is truncated: its cycle is the previous one plus cost and entry, its index the number of events due before the entry |
| TimelineProbe.ConfiguredExactly | tools/timeline_probe.h:40-49 | The probe starts exactly for a cartridge address, 1 to 112 steps and at most 64 increasing events |
| TimelineProbe.CompletedIsValid | tools/timeline_probe.h:75-85 | A completion keeps the rows and the cursor in agreement if and only if no delivered event lies after it |
| TimelineProbe.ForwardIsTimely | tools/timeline_probe.h:75-85 | A clock that does not go back between completions always meets that condition |
| TimelineProbe.RepeatedCompletionMiscounts | tools/timeline_probe.h:75-85 | A concrete repeated completion with an earlier time and the wrong index it records |
| TimelineProbe.RowsAlwaysAgree | tools/timeline_probe.h:50-85 | From any configuration and after any timely calls all rows follow the ledger |
| TimelineProbe.CheckEvents | tools/timeline_probe.h:44-47 | The loop accepts exactly the positive, strictly increasing events |
| TimelineProbe.Probe.Before | tools/timeline_probe.h:50-74 | The static variables after a capture are those of the transition |
| TimelineProbe.Probe.After | tools/timeline_probe.h:75-85 | The static variables after a completion, with its event loop, are those of the transition |
| ProbeAgreement.ObserveRun | tools/timeline_probe.h:40-85 | Driven by any run the probe reports no error, and its rows are the states, costs, entries and kinds of that run |
| ApuClocks.EnvelopeClosedForm | tools/apu_model.py:37-47 | m clocks after a restart the divider is p - (m mod (p+1)) and the level 15 - m/(p+1) cut at 0, or modulo 16 when looping |
| ApuClocks.RestartedEnvelope | tools/apu_model.py:37-47 | The same for voices 0, 1 and 3 of the counters after a restarting quarter clock |
| ApuClocks.LinearClosedForm | tools/apu_model.py:48-49 | After a reload the linear counter falls by one a clock down to 0, or stays loaded while its control bit is set |
| ApuClocks.SequencerClosedForm | tools/apu_model.py:54-60 | Quarters, halves and phase after t opportunities from phase 0, in both modes |
| ApuClocks.FramesClosedForm | tools/apu_model.py:54-60 | n frames clock 4n quarters and 2n halves in four steps; in five, with t = 4n, t - (t+1)/5 quarters, (t+3)/5 + t/5 halves, phase t mod 5 |
| ApuClocks.PhaseBound | tools/apu_model.py:30-32 | On every run the phase stays below 4, or 5 in five-step mode |
| ApuClocks.LengthCountdown | tools/apu_model.py:50-53 | Over any run that leaves a voice alone its length is max(0, L - N) after N half clocks, or unchanged when halted |
| ApuClocks.RevivedExactlyByStart | tools/apu_model.py:23-36 | A silent voice gets a length from exactly one event: a high register write while enabled, and then the table's value |
| ApuClocks.SilentVoiceStaysSilent | tools/apu_model.py:23-66 | Without such an event a silent voice stays silent over every run |
| ApuVolume.FlagsAreBits | tools/apu_model.py:28-53 | Which bits the enable, halt, loop and mode tests look at |
| ApuVolume.LengthTableShape | tools/apu_model.py:8-9 | The length table by its rule: odd entries in twos after the longest, even ones two doubling scales |
| ApuVolume.WriteExactly | tools/apu_model.py:23-32 | Which writes are accepted, the register they change, and the clocks and the phase that $4017 sets |
| ApuVolume.WriteVoices | tools/apu_model.py:28-36 | $4015 clears the lengths of disabled voices; a high register restarts its voice and, when enabled, loads its length |
| ApuVolume.VoiceSounds | tools/apu_model.py:37-66 | After any run that leaves a restarted voice alone its volume is 6 or 4 times the constant or decayed level, 66 while the triangle counts, and 0 when disabled or out of length |
| ApuVolume.SweptVoiceSounds | tools/apu_sweep_model.py:35-54 | The same with sweep, where a muted pulse is silent |
| ApuVolume.TargetExactly | tools/apu_sweep_model.py:26-34 | The sweep target by its control bits, with the wrap of a negated one |
| ApuVolume.PowersDouble | tools/apu_sweep_model.py:31 | A shift by one more halves the change |
| ApuVolume.PulseClockExactly | tools/apu_sweep_model.py:39-50 | When a half clock moves the period, to what, and when the divider starts again |
| ApuVolume.SweepWriteExactly | tools/apu_sweep_model.py:15-24 | Which writes reload a sweep and which bits of the period the others set |
| ApuVolume.StartsAtZero | tools/apu_sweep_model.py:10-13 | Both models start with everything at zero |
| ApuCounters.Counters.Write | tools/apu_model.py:23-36 | The fields after a write, with the clocks a five-step selection causes, are those of the event; a refused write changes nothing |
| ApuCounters.Counters.Quarter | tools/apu_model.py:37-49 | The loop over the voices clocks three envelopes and the linear counter |
| ApuCounters.Counters.Half | tools/apu_model.py:50-53 | The loop over the voices counts every running length down |
| ApuCounters.Counters.Frame | tools/apu_model.py:54-61 | The loop performs four sequencer opportunities |
| ApuSweep.SweepSimulatesBase | tools/apu_sweep_model.py:10-54 | Over every run the base fields are those of the counters alone, and a volume is theirs or 0 |
| ApuSweep.InheritedLaws | tools/apu_sweep_model.py:10-54 | The phase bound, the length countdown and the silence of unstarted voices hold for the layered counters |
| ApuSweep.UpdateNeedsNoCut | tools/apu_sweep_model.py:26-33 | Whenever a negated update happens, the eleven-bit mask changes nothing |
| ApuSweep.RunKeepsRange | tools/apu_sweep_model.py:15-50 | No run leaves periods of 11 bits or dividers of 3 bits |
| ApuSweep.RunOnlySweeps | tools/apu_sweep_model.py:39-50 | Without writes to its sweep registers a channel's sweep depends on the half clocks alone, wherever they come from |
| ApuSweep.FallingSweep | tools/apu_sweep_model.py:26-50 | A falling sweep gets under period 8 by its deadline and stays there exactly in channel 0 or with a shift of at most 3 |
| ApuSweep.DeadlineIsSharp | tools/apu_sweep_model.py:26-50 | While the shifted period is zero the deadline is the exact clock of muting |
| ApuSweep.FallingChannelIsSilenced | tools/apu_sweep_model.py:35-54 | In any run without writes to them, the sweep registers of a falling channel silence it within 8 * (period + 1) half clocks, or never |
| SweepCounters.SweepCounters.Half | tools/apu_sweep_model.py:39-50 | The extended half clock on the fields is the base clock and both sweep units |
| SweepCounters.SweepCounters.Write | tools/apu_sweep_model.py:15-24 | A write stores into the base, causes extended clocks, then updates the period or the reload flag |
| SweepCounters.SweepCounters.Frame | tools/apu_model.py:54-61 | A frame of the layered counters causes extended half clocks |
| NativeFixture.Program.Op | tools/native_fixture.py:24-28 | The program after an instruction, with its start, opcode, placeholder and fixup, or what a failed one leaves behind |
| NativeFixture.Program.Finish | tools/native_fixture.py:35-43 | The loop patches the buffer in place, fixup by fixup, up to the first that is refused |
| FixtureRoundTrip.MarkIsLabel | tools/native_fixture.py:21-23 | A label holds the address of the instruction that follows it |
| FixtureRoundTrip.FinishFailsExactly | tools/native_fixture.py:36-42 | Finishing fails exactly for a reference without a label, a branch out of range or an address over 16 bits |
| FixtureRoundTrip.FinishEncodes | tools/native_fixture.py:35-43 | When labels fit their operands, the finished bytes are the encodings of all instructions in order |
| FixtureRoundTrip.TargetIsLabel | tools/timeline_program.py:98-100 | The target decoded from a branch, jump or call is its label's address |
| FixtureRoundTrip.RoundTrip | tools/timeline_program.py:44-101 | Decoding the finished program gives back names, modes, bytes and resolved operands if and only if the code fits, all labels fit and all instructions and targets are admitted |
| FixtureRoundTrip.NarrowLabelIsLost | tools/native_fixture.py:24-42 | A program with a label in a one-byte operand that assembles and finishes, to code that no gates decode to what was written |
| TimelineDecode.Decode | tools/timeline_program.py:44-101 | The loops over code, starts and targets compute the recursive definition, with its errors in order |
| TimelineDecode.DecodesExactly | tools/timeline_program.py:44-101 | Decoding accepts exactly the lines that tile the code, lie within the contract, stand at the declared starts and reach declared targets |
| TimelineAdmission.AdmittedExactly | tools/timeline_program.py:67-95 | An instruction is admitted exactly when as many gates are open, in order, as its opcode and the region of its address need |
| TimelineAdmission.OneLineExactly | tools/timeline_program.py:60-100 | A one-instruction program is outside the contract exactly when too few gates are open, else decoded up to its target |
| TimelineAdmission.OpeningKeepsDecoding | tools/timeline_program.py:67-101 | Opening a gate refuses nothing that was decoded |
| TimelineAdmission.RefusedExactly | tools/timeline_program.py:45-59 | Gates out of order, a fragment outside its bounds, and starts that do not rise are refused in that order |
| TimelineAdmission.BranchTargetIsExecuted | tools/timeline_program.py:98-100 | The target decoding checks for a branch is where it goes when taken |
| TimelineAdmission.JumpTargetIsExecuted | tools/timeline_program.py:98-100 | The target decoding checks for a jump or a call is where it goes |
| TimelineAdmission.TargetExists | tools/timeline_program.py:98-100 | Exactly branches, absolute jumps and calls have a target to check |
| Sprites.SpriteOam | tools/build_scene.py:17-34 | The loops fill a hidden table, in order, with the objects of all shown sprites and leave the rest hidden |
| Sprites.ExpectedObjects | tools/verify_object_cache.py:11-28 | The loop lists both slots of every sprite |
| Sprites.SpriteAgrees | tools/verify_object_cache.py:19-27 | Both encoders give one sprite the same objects, and none equals the hidden pattern |
| Sprites.EncodersAgree | tools/build_scene.py:17-34 | For every object memory and control byte, the expected buffer without hidden slots is the leading part of the table, and the rest of the table is hidden |
| SpriteRows.EveryLineIsDrawn | tools/build_scene.py:17-34 | Every line of every shown sprite, with its four stored bytes, is drawn by its object at its place with the tile, row, palette, priority and flips of the NES |
| IdleObserver.Observer.Configure | tools/idle_observer.h:39-67 | Accepts exactly the sound configurations; a refused one leaves the observer off |
| IdleObserver.Observer.BeforeFrame | tools/idle_observer.py:54-58 | Takes exactly the later frame numbers up to 2000000; a refused one changes nothing |
| IdleObserver.Observer.OnStep | tools/idle_observer.h:81-100 | The log after a step, with the copied RAM bytes, is that of the transition |
| IdleObserver.Observer.Finish | tools/idle_observer.py:60-79 | The checking loop accepts exactly the complete, nonempty, ordered logs, and returns each record with its interval |
| IdleObserver.ObservedIsFaithful | tools/idle_observer.h:81-100 | After any session record k is the snapshot of the visit that k others precede, with the frame and tick count of that moment |
| IdleObserver.ObserverIsComplete | tools/idle_observer.py:60-79 | A session is accepted exactly with 1 to capacity visits and ticks that fit; then no visit is missing |
| IdleObserver.IntervalsTelescope | tools/idle_observer.py:75-79 | Reported intervals are never negative and add up to the last tick count |
| RomImage.SizeIsLeast | tools/build_viewer.py:32 | The size is the least power of two that holds the input, and at least 64 KiB |
| RomImage.FinalizeRom | tools/build_viewer.py:29-43 | The image keeps the input outside the header fields, is filled with $FF, and its size and checksum fields describe it; the final assertion holds |
| RomImage.ChecksumStands | tools/build_viewer.py:38-42 | A checksum with its complement adds the same bytes whatever it is |
| RomImage.SumAdds | tools/build_viewer.py:40 | The byte sum of a file is that of its parts |
| RomImage.FinalValidates | tools/build_viewer.py:46-58 | A finished image is accepted exactly when its core has a legal map mode and reset vector |
| RomImage.ValidatesExactly | tools/build_viewer.py:46-58 | Any file is accepted exactly with the size its header names, a true checksum and complement, a LoROM map mode and a reset vector in the cartridge |
| RomImage.RefusesOtherSizes | tools/build_viewer.py:46-48 | Exactly files under 32 KiB or not a power of two are refused for their size |

## Left out

- BuildNative.ClassifyPatch: does not model the counts of covered bytes and sites in the report, because they only summarise the sites.
- NativeMeaning.FinalAccess: speaks of the address and operand of an access, not of its result; with D set the host adds and subtracts in decimal where the 2A03 does not.
- CallPatterns.Plan: does not model the assembly text of the wrappers.
- Veneer.BankVeneer: does not model the CountRuntime macro, the optional delay loop for tests and the fault routine's body; memory addresses are fields, and no interrupt arrives inside it.
- GuestMachine.Execute: the results of the native ALU and of memory accesses, and the target of an indirect jump, are arbitrary inputs of a step.
- TimelineProbe.Probe.Before: does not model the RAM copy in a row and the core's request word; pending requests are two booleans.
- NativeFixture.Program.Op: does not model the bookkeeping of test records (`record`, `results`, `cursor`).
- TimelineDecode.Decode: does not model the checks that arguments have the right Python types; the model is typed.
- IdleObserver.Observer.Configure: does not model a failed allocation, a null pointer or the record ABI check.
- DirectCalls.Apply: does not model the generated assembly text of the veneers other than the bank veneer.
- Pipeline.Translate: does not model files, reports, asset tables or the linker; symbols are a map.
- Mapper profiles, palette, object memory, CHR and DMA adapters: text spliced around assembly routines.
- Emulator sessions, callbacks, reports and picture, sound and JSON output: input and output only.
- The assembly kernels under snes/src except the retirement order of guest_timeline.inc.
- Pitch tables, sound statistics and pixel thresholds: numerical or perceptual checks.
