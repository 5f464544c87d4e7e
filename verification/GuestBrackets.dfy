/** The wrapping 256-byte stack page implements an unbounded stack of calls, saved
    registers and interrupt frames, on every run whose brackets match and never hold
    more than 256 bytes. */
module GuestBrackets {
  import opened Bytes
  import opened StatusRegister
  import opened Opcodes
  import opened GuestCycles
  import opened InterruptBoundary
  import opened GuestMachine
  import opened GuestSafety

  /** What an open bracket has saved. */
  datatype Held = Call(pc: word) | Accumulator(a: byte) | Flags(p: Status) | Interrupted(p: Status, pc: word)

  /** The bytes a bracket holds on the stack, from the top. */
  function Saved(h: Held): seq<byte> {
    match h
    case Call(pc) => Words(Plus(pc, 2))
    case Accumulator(a) => [a]
    case Flags(p) => [Pack(p.(b := true, u := true))]
    case Interrupted(p, pc) => [Pack(p.(b := false, u := true)), pc % 0x100, pc / 0x100]
  }

  function AllSaved(frames: seq<Held>): seq<byte> {
    if frames == [] then [] else Saved(frames[0]) + AllSaved(frames[1..])
  }

  // ---- the page as a stack ----

  /** Where the i-th byte from the top lies. */
  function Place(s: byte, i: nat): byte
    requires i < PAGE
  {
    if s + 1 + i < PAGE then s + 1 + i else s + 1 + i - PAGE
  }

  /** Where the pointer stands once n held bytes are gone. */
  function Base(s: byte, n: nat): byte
    requires n <= PAGE
  {
    if s + n < PAGE then s + n else s + n - PAGE
  }

  ghost predicate Holds(k: Stack, bytes: seq<byte>) {
    |bytes| <= PAGE && forall i {:trigger bytes[i]} :: 0 <= i < |bytes| ==> k.page[Place(k.s, i)] == bytes[i]
  }

  lemma PushHolds(k: Stack, bytes: seq<byte>, value: byte)
    requires Holds(k, bytes) && |bytes| < PAGE
    ensures Holds(Push(k, value), [value] + bytes)
    ensures Base(Push(k, value).s, |bytes| + 1) == Base(k.s, |bytes|)
  {
    var k' := Push(k, value);
    var bytes' := [value] + bytes;
    forall i {:trigger bytes'[i]} | 0 <= i < |bytes'| ensures k'.page[Place(k'.s, i)] == bytes'[i] {
      if i > 0 {
        assert Place(k'.s, i) == Place(k.s, i - 1) && k.page[Place(k.s, i - 1)] == bytes[i - 1];
      }
    }
  }

  lemma PopHolds(k: Stack, value: byte, bytes: seq<byte>)
    requires Holds(k, [value] + bytes)
    ensures Top(k) == value && Holds(Pop(k), bytes)
    ensures Base(Pop(k).s, |bytes|) == Base(k.s, |bytes| + 1)
  {
    var held := [value] + bytes;
    assert k.page[Place(k.s, 0)] == held[0];
    forall i {:trigger bytes[i]} | 0 <= i < |bytes| ensures Pop(k).page[Place(Pop(k).s, i)] == bytes[i] {
      assert k.page[Place(k.s, i + 1)] == held[i + 1];
      assert Place(Pop(k).s, i) == Place(k.s, i + 1);
    }
  }

  lemma {:induction false} PushAllHolds(k: Stack, bytes: seq<byte>, more: seq<byte>)
    requires Holds(k, bytes) && |more| + |bytes| <= PAGE
    ensures Holds(PushAll(k, more), more + bytes)
    ensures Base(PushAll(k, more).s, |more| + |bytes|) == Base(k.s, |bytes|)
    decreases |more|
  {
    if more == [] {
      assert more + bytes == bytes;
    } else {
      PushAllHolds(k, bytes, more[1..]);
      PushHolds(PushAll(k, more[1..]), more[1..] + bytes, more[0]);
      assert [more[0]] + (more[1..] + bytes) == more + bytes;
    }
  }

  /** The limit is sharp: one byte more lands on the deepest one. */
  lemma PageIsFull(k: Stack, bytes: seq<byte>, value: byte)
    requires Holds(k, bytes) && |bytes| == PAGE
    ensures Push(k, value).page[Place(k.s, PAGE - 1)] == value
    ensures Holds(Push(k, value), ([value] + bytes)[..PAGE])
    ensures Holds(k.(page := Push(k, value).page), bytes) <==> value == bytes[PAGE - 1]
  {
    assert Place(k.s, PAGE - 1) == k.s;
    var k' := Push(k, value);
    var bytes' := ([value] + bytes)[..PAGE];
    forall i {:trigger bytes'[i]} | 0 <= i < PAGE ensures k'.page[Place(k'.s, i)] == bytes'[i] {
      if i > 0 {
        assert k.page[Place(k.s, i - 1)] == bytes[i - 1] && Place(k'.s, i) == Place(k.s, i - 1);
      }
    }
    assert bytes[PAGE - 1] == k.page[k.s];
  }

  // ---- matching brackets ----

  /** The open brackets after an instruction executes; None when it closes a bracket
      that is not the innermost one, or moves the pointer. */
  function Matched(frames: seq<Held>, g: Guest, name: Name): Option<seq<Held>> {
    match name
    case JSR => Some([Call(g.pc)] + frames)
    case PHA => Some([Accumulator(g.a)] + frames)
    case PHP => Some([Flags(g.p)] + frames)
    case PLA => if frames != [] && frames[0].Accumulator? then Some(frames[1..]) else None
    case PLP => if frames != [] && frames[0].Flags? then Some(frames[1..]) else None
    case RTS => if frames != [] && frames[0].Call? then Some(frames[1..]) else None
    case RTI => if frames != [] && frames[0].Interrupted? then Some(frames[1..]) else None
    case TXS => if g.x == g.stack.s then Some(frames) else None
    case _ => Some(frames)
  }

  /** Operations that run natively and may store into the stack page. */
  predicate MayStore(name: Name) {
    !name.JMP? && !IsBranch(name) && !IsCall(name) && !IsTransfer(name)
    && !name.CLI? && !name.SEI? && !name.CLD? && !name.SED?
  }

  /** What memory instructions store leaves the held bytes alone. */
  ghost predicate Spares(frames: seq<Held>, g: Guest, name: Name, e: Effect) {
    MayStore(name) && Holds(g.stack, AllSaved(frames)) ==> Holds(g.stack.(page := e.page), AllSaved(frames))
  }

  /** The values a closing instruction brings back are those its bracket saved. */
  ghost predicate Restores(frames: seq<Held>, name: Name, d: Guest) {
    match name
    case PLA => frames != [] && frames[0].Accumulator? && d.a == frames[0].a
    case PLP => frames != [] && frames[0].Flags? && d.p == frames[0].p.(b := true, u := true)
    case RTS => frames != [] && frames[0].Call? && d.pc == Plus(frames[0].pc, 3)
    case RTI => frames != [] && frames[0].Interrupted? && d.p == frames[0].p.(b := false, u := true) && d.pc == frames[0].pc
    case _ => true
  }

  function PopAll(k: Stack, n: nat): Stack
    decreases n
  {
    if n == 0 then k else PopAll(Pop(k), n - 1)
  }

  /** Pulling as many bytes as a bracket saved gives them back in order. */
  lemma {:induction false} PopAllHolds(k: Stack, bytes: seq<byte>, more: seq<byte>)
    requires Holds(k, more + bytes)
    ensures Holds(PopAll(k, |more|), bytes)
    ensures Base(PopAll(k, |more|).s, |bytes|) == Base(k.s, |more| + |bytes|)
    ensures forall i {:trigger more[i]} :: 0 <= i < |more| ==> Top(PopAll(k, i)) == more[i]
    decreases |more|
  {
    if more == [] {
      assert more + bytes == bytes;
    } else {
      var rest := more[1..];
      assert more + bytes == [more[0]] + (rest + bytes);
      PopHolds(k, more[0], rest + bytes);
      PopAllHolds(Pop(k), bytes, rest);
      forall i {:trigger more[i]} | 0 <= i < |more| ensures Top(PopAll(k, i)) == more[i] {
        if i > 0 {
          assert rest[i - 1] == more[i] && PopAll(k, i) == PopAll(Pop(k), i - 1);
        }
      }
    }
  }

  lemma PullSaved(k: Stack, h: Held, frames: seq<Held>)
    requires Holds(k, AllSaved([h] + frames))
    ensures var n := |Saved(h)|;
      && Holds(PopAll(k, n), AllSaved(frames))
      && Base(PopAll(k, n).s, |AllSaved(frames)|) == Base(k.s, |AllSaved([h] + frames)|)
      && forall i {:trigger Saved(h)[i]} :: 0 <= i < n ==> Top(PopAll(k, i)) == Saved(h)[i]
  {
    hide Pack, Holds;
    assert ([h] + frames)[1..] == frames;
    PopAllHolds(k, AllSaved(frames), Saved(h));
  }

  lemma PushSaved(k: Stack, h: Held, frames: seq<Held>)
    requires Holds(k, AllSaved(frames)) && |AllSaved([h] + frames)| <= PAGE
    ensures Holds(PushAll(k, Saved(h)), AllSaved([h] + frames))
    ensures Base(PushAll(k, Saved(h)).s, |AllSaved([h] + frames)|) == Base(k.s, |AllSaved(frames)|)
  {
    hide Pack, Holds;
    assert ([h] + frames)[1..] == frames;
    PushAllHolds(k, AllSaved(frames), Saved(h));
  }

  predicate Opens(name: Name) {
    name.JSR? || name.PHA? || name.PHP?
  }

  predicate Closes(name: Name) {
    name.PLA? || name.PLP? || name.RTS? || name.RTI?
  }

  lemma OpeningHolds(g: Guest, name: Name, mode: Mode, operand: word, e: Effect, frames: seq<Held>)
    requires Opens(name)
    requires Holds(g.stack, AllSaved(frames)) && |AllSaved(Matched(frames, g, name).value)| <= PAGE
    ensures var d, after := Perform(g, name, mode, operand, e), AllSaved(Matched(frames, g, name).value);
      && Holds(d.stack, after) && Base(d.stack.s, |after|) == Base(g.stack.s, |AllSaved(frames)|)
      && Restores(frames, name, d)
  {
    hide Pack, Holds, Base, PushAll, Push, Words, Plus, AllSaved;
    match name
    case JSR => PushSaved(g.stack, Call(g.pc), frames);
    case PHA => PushOne(g.stack, Accumulator(g.a), frames);
    case PHP => PushOne(g.stack, Flags(g.p), frames);
  }

  lemma ClosingHolds(g: Guest, name: Name, mode: Mode, operand: word, e: Effect, frames: seq<Held>)
    requires Closes(name) && Matched(frames, g, name).Some? && Holds(g.stack, AllSaved(frames))
    ensures var d, after := Perform(g, name, mode, operand, e), AllSaved(frames[1..]);
      && Matched(frames, g, name).value == frames[1..]
      && Holds(d.stack, after)
      && Base(d.stack.s, |after|) == Base(g.stack.s, |AllSaved(frames)|)
      && Restores(frames, name, d)
  {
    hide Pack, Unpack, Holds, Base, Pop, Top, Words, Plus, AllSaved, LittleEndian;
    match name
    case PLA => PullOne(g.stack, frames);
    case PLP =>
      PullOne(g.stack, frames);
      UnpackPack(frames[0].p.(b := true, u := true));
    case RTS => PullCall(g.stack, frames);
    case RTI =>
      PullInterrupt(g.stack, frames);
      UnpackPack(frames[0].p.(b := false, u := true));
  }

  /** An instruction that matches its brackets keeps the page a faithful stack, and
      a closing one brings back what its bracket saved. */
  lemma PerformHolds(g: Guest, name: Name, mode: Mode, operand: word, e: Effect, frames: seq<Held>)
    requires Matched(frames, g, name).Some? && Spares(frames, g, name, e)
    requires Holds(g.stack, AllSaved(frames)) && |AllSaved(Matched(frames, g, name).value)| <= PAGE
    ensures var d, after := Perform(g, name, mode, operand, e), AllSaved(Matched(frames, g, name).value);
      && Holds(d.stack, after)
      && Base(d.stack.s, |after|) == Base(g.stack.s, |AllSaved(frames)|)
      && Restores(frames, name, d)
  {
    hide Pack, Unpack, Holds, Base, PushAll, Push, Pop, Top, Words, Plus, AllSaved, BranchTarget, BranchTaken, Perform, Matched, Restores;
    MatchedShape(frames, g, name);
    if Opens(name) {
      OpeningHolds(g, name, mode, operand, e, frames);
    } else if Closes(name) {
      ClosingHolds(g, name, mode, operand, e, frames);
    } else {
      NeutralHolds(g, name, mode, operand, e, frames);
    }
  }

  lemma NeutralHolds(g: Guest, name: Name, mode: Mode, operand: word, e: Effect, frames: seq<Held>)
    requires !Opens(name) && !Closes(name) && Matched(frames, g, name).Some? && Spares(frames, g, name, e)
    requires Holds(g.stack, AllSaved(frames))
    ensures Matched(frames, g, name).value == frames
    ensures var d := Perform(g, name, mode, operand, e);
      Holds(d.stack, AllSaved(frames)) && d.stack.s == g.stack.s && Restores(frames, name, d)
  {
    hide PerformCall, Holds, AllSaved, Plus, BranchTarget, BranchTaken, WithNZ, Pack, Unpack, Top, Pop, Push;
  }

  lemma PushOne(k: Stack, h: Held, frames: seq<Held>)
    requires Holds(k, AllSaved(frames)) && |AllSaved([h] + frames)| <= PAGE && |Saved(h)| == 1
    ensures Holds(Push(k, Saved(h)[0]), AllSaved([h] + frames))
    ensures Base(Push(k, Saved(h)[0]).s, |AllSaved([h] + frames)|) == Base(k.s, |AllSaved(frames)|)
  {
    hide Pack, Holds, Base;
    PushSaved(k, h, frames);
    assert PushAll(k, Saved(h)) == Push(PushAll(k, []), Saved(h)[0]);
  }

  lemma PullOne(k: Stack, frames: seq<Held>)
    requires frames != [] && Holds(k, AllSaved(frames)) && |Saved(frames[0])| == 1
    ensures Top(k) == Saved(frames[0])[0] && Holds(Pop(k), AllSaved(frames[1..]))
    ensures Base(Pop(k).s, |AllSaved(frames[1..])|) == Base(k.s, |AllSaved(frames)|)
  {
    hide Pack, Holds, Base;
    assert frames == [frames[0]] + frames[1..];
    PullSaved(k, frames[0], frames[1..]);
    assert PopAll(k, 0) == k && PopAll(k, 1) == PopAll(Pop(k), 0) == Pop(k);
  }

  lemma PullCall(k: Stack, frames: seq<Held>)
    requires frames != [] && Holds(k, AllSaved(frames)) && frames[0].Call?
    ensures Plus(LittleEndian(Top(k), Top(Pop(k))), 1) == Plus(frames[0].pc, 3)
    ensures Holds(Pop(Pop(k)), AllSaved(frames[1..]))
    ensures Base(Pop(Pop(k)).s, |AllSaved(frames[1..])|) == Base(k.s, |AllSaved(frames)|)
  {
    hide Pack, Holds, Base;
    assert frames == [frames[0]] + frames[1..];
    PullSaved(k, frames[0], frames[1..]);
    PopThrice(k);
    var saved := Words(Plus(frames[0].pc, 2));
    assert saved == Saved(frames[0]);
    assert Top(PopAll(k, 0)) == saved[0] && Top(PopAll(k, 1)) == saved[1];
    hide Plus, Words, LittleEndian, Top, Pop;
    WordsRoundTrip(Plus(frames[0].pc, 2));
    PlusPlus(frames[0].pc);
  }

  lemma PullInterrupt(k: Stack, frames: seq<Held>)
    requires frames != [] && Holds(k, AllSaved(frames)) && frames[0].Interrupted?
    ensures Top(k) == Pack(frames[0].p.(b := false, u := true))
    ensures LittleEndian(Top(Pop(k)), Top(Pop(Pop(k)))) == frames[0].pc
    ensures Holds(Pop(Pop(Pop(k))), AllSaved(frames[1..]))
    ensures Base(Pop(Pop(Pop(k))).s, |AllSaved(frames[1..])|) == Base(k.s, |AllSaved(frames)|)
  {
    hide Pack, Holds, Base;
    assert frames == [frames[0]] + frames[1..];
    PullSaved(k, frames[0], frames[1..]);
    PopThrice(k);
    var saved := Saved(frames[0]);
    assert Top(PopAll(k, 0)) == saved[0] && Top(PopAll(k, 1)) == saved[1] && Top(PopAll(k, 2)) == saved[2];
    assert LittleEndian(saved[1], saved[2]) == frames[0].pc;
  }

  lemma WordsRoundTrip(w: word)
    ensures |Words(w)| == 2 && LittleEndian(Words(w)[0], Words(w)[1]) == w
  {
  }

  lemma PlusPlus(pc: word)
    ensures Plus(Plus(pc, 2), 1) == Plus(pc, 3)
  {
  }

  lemma PopThrice(k: Stack)
    ensures PopAll(k, 0) == k && PopAll(k, 1) == Pop(k) && PopAll(k, 2) == Pop(Pop(k)) && PopAll(k, 3) == Pop(Pop(Pop(k)))
  {
    assert PopAll(k, 1) == PopAll(Pop(k), 0);
    assert PopAll(k, 2) == PopAll(Pop(k), 1) == PopAll(Pop(Pop(k)), 0);
    assert PopAll(k, 3) == PopAll(Pop(k), 2) == PopAll(Pop(Pop(k)), 1) == PopAll(Pop(Pop(Pop(k))), 0);
  }

  // ---- whole runs ----

  function NameOf(s: Step): Name
    requires Known(s.row.opcode)
  {
    Lookup(s.row.opcode).name
  }

  /** The open brackets between execution and entry, and after the step. */
  function Mid(frames: seq<Held>, s: Step): seq<Held>
    requires Known(s.row.opcode) && Matched(frames, s.start, NameOf(s)).Some?
  {
    Matched(frames, s.start, NameOf(s)).value
  }

  function After(frames: seq<Held>, s: Step): seq<Held>
    requires Known(s.row.opcode) && Matched(frames, s.start, NameOf(s)).Some?
  {
    if Enters(s) then [Interrupted(s.done.p, s.done.pc)] + Mid(frames, s) else Mid(frames, s)
  }

  /** The step closes only the innermost bracket, stores into no held byte, and
      never makes the brackets hold more than a page. */
  ghost predicate Bracketed(frames: seq<Held>, s: Step) {
    && Known(s.row.opcode)
    && Matched(frames, s.start, NameOf(s)).Some?
    && Spares(frames, s.start, NameOf(s), s.effect)
    && |AllSaved(Mid(frames, s))| <= PAGE
    && |AllSaved(After(frames, s))| <= PAGE
  }

  /** The brackets open after a run, starting from none; None if some step breaks the discipline. */
  ghost function Open(run: seq<Step>): Option<seq<Held>> {
    if run == [] then Some([])
    else
      var last := run[|run| - 1];
      match Open(run[..|run| - 1])
      case None => None
      case Some(frames) => if Bracketed(frames, last) then Some(After(frames, last)) else None
  }

  lemma StepHolds(c: Config, s: Step, frames: seq<Held>)
    requires Taken(c, s) && Bracketed(frames, s) && Holds(s.start.stack, AllSaved(frames))
    ensures Holds(s.done.stack, AllSaved(Mid(frames, s))) && Holds(s.end.stack, AllSaved(After(frames, s)))
    ensures Base(s.done.stack.s, |AllSaved(Mid(frames, s))|) == Base(s.start.stack.s, |AllSaved(frames)|)
    ensures Base(s.end.stack.s, |AllSaved(After(frames, s))|) == Base(s.start.stack.s, |AllSaved(frames)|)
    ensures Restores(frames, NameOf(s), s.done)
  {
    hide Opcodes.Lookup, Holds, Base, AllSaved, Perform, Matched, PushAll, Cost, Consume;
    var op := Lookup(s.row.opcode);
    PerformHolds(s.start, op.name, op.mode, s.row.operand, s.effect, frames);
    if Enters(s) {
      PushSaved(s.done.stack, Interrupted(s.done.p, s.done.pc), Mid(frames, s));
      assert Frame(s.boundary) == Saved(Interrupted(s.done.p, s.done.pc));
    }
  }

  lemma RunPrefix(c: Config, run: seq<Step>, n: nat)
    requires IsRun(c, run) && n <= |run|
    ensures IsRun(c, run[..n])
  {
    hide Take;
  }

  /** On every bracketed run the page holds the open brackets, and the pointer is as
      far below its start as they are long. */
  lemma {:induction false} RunHolds(c: Config, run: seq<Step>)
    requires IsRun(c, run) && run != [] && Open(run).Some?
    ensures Holds(run[|run| - 1].end.stack, AllSaved(Open(run).value))
    ensures Base(run[|run| - 1].end.stack.s, |AllSaved(Open(run).value)|) == run[0].start.stack.s
    decreases |run|, 0
  {
    hide Taken, Holds, Bracketed, After, AllSaved;
    var before, last := run[..|run| - 1], run[|run| - 1];
    StartHolds(c, run, |run| - 1);
    StepHolds(c, last, Open(before).value);
  }

  lemma {:induction false} StartHolds(c: Config, run: seq<Step>, k: nat)
    requires IsRun(c, run) && k < |run| && Open(run[..k]).Some?
    ensures Holds(run[k].start.stack, AllSaved(Open(run[..k]).value))
    ensures Base(run[k].start.stack.s, |AllSaved(Open(run[..k]).value)|) == run[0].start.stack.s
    decreases k, 1
  {
    hide Taken, Bracketed, After;
    if k > 0 {
      RunPrefix(c, run, k);
      RunHolds(c, run[..k]);
    } else {
      assert Open(run[..0]) == Some([]);
    }
  }

  /** Step j opened bracket h on top of the brackets below: by a push or by an entry. */
  ghost predicate Opened(run: seq<Step>, j: nat, h: Held, below: seq<Held>)
    requires j < |run|
  {
    && Open(run[..j]).Some? && Bracketed(Open(run[..j]).value, run[j])
    && (|| (!h.Interrupted? && Opens(NameOf(run[j])) && Open(run[..j]).value == below && Mid(below, run[j]) == [h] + below)
        || (Enters(run[j]) && h == Interrupted(run[j].done.p, run[j].done.pc)
            && Mid(Open(run[..j]).value, run[j]) == below))
  }

  /** Every bracket that is open has been opened by some step, at its own depth. */
  lemma {:induction false} OpenedBefore(run: seq<Step>, above: seq<Held>, h: Held, below: seq<Held>) returns (j: nat)
    requires Open(run).Some? && Open(run).value == above + [h] + below
    ensures j < |run| && Opened(run, j, h, below)
    decreases |run|
  {
    var last := |run| - 1;
    var before := run[..last];
    var s := run[last];
    var frames := Open(before).value;
    var mid := Mid(frames, s);
    var above' := above;
    if Enters(s) {
      if above == [] {
        assert mid == ([Interrupted(s.done.p, s.done.pc)] + mid)[1..] == ([h] + below)[1..] == below;
        return last;
      }
      above' := above[1..];
      assert mid == (above + [h] + below)[1..] == above' + [h] + below;
    }
    j := OpenedInside(run, frames, above', h, below);
  }

  lemma {:induction false} OpenedInside(run: seq<Step>, frames: seq<Held>, above: seq<Held>, h: Held, below: seq<Held>)
    returns (j: nat)
    requires Open(run).Some? && run != [] && Open(run[..|run| - 1]) == Some(frames)
    requires Mid(frames, run[|run| - 1]) == above + [h] + below
    ensures j < |run| && Opened(run, j, h, below)
    decreases |run|, 0
  {
    hide Spares, AllSaved, Opcodes.Lookup, Matched, Enters;
    var last := |run| - 1;
    var before, name, mid := run[..last], NameOf(run[last]), Mid(frames, run[last]);
    MatchedShape(frames, run[last].start, name);
    var above' := above;
    if Opens(name) {
      if above == [] {
        assert mid == [mid[0]] + frames == [h] + below;
        assert frames == mid[1..] == below;
        OpenedValues(below, run[last], h);
        return last;
      }
      above' := above[1..];
      assert frames == mid[1..] == above' + [h] + below;
    } else if Closes(name) {
      above' := [frames[0]] + above;
      assert frames == above' + [h] + below;
    }
    j := OpenedBefore(before, above', h, below);
    assert before[..j] == run[..j];
  }

  lemma MatchedShape(frames: seq<Held>, g: Guest, name: Name)
    requires Matched(frames, g, name).Some?
    ensures var mid := Matched(frames, g, name).value;
      && (Opens(name) ==> mid != [] && mid == [mid[0]] + frames)
      && (Closes(name) ==> frames != [] && frames == [frames[0]] + mid)
      && (!Opens(name) && !Closes(name) ==> mid == frames)
  {
  }

  /** Step k ends the bracket that step j opened: the pointer is back where it was,
      and so is what the bracket saved. */
  ghost predicate Ends(run: seq<Step>, j: nat, k: nat)
    requires j < |run| && k < |run| && Known(run[j].row.opcode) && Known(run[k].row.opcode)
  {
    var from, to := run[j], run[k].done;
    match NameOf(run[k])
    case RTS => NameOf(from).JSR? && to.stack.s == from.start.stack.s && to.pc == Plus(from.start.pc, 3)
    case PLA => NameOf(from).PHA? && to.stack.s == from.start.stack.s && to.a == from.start.a
    case PLP => NameOf(from).PHP? && to.stack.s == from.start.stack.s && to.p == from.start.p.(b := true, u := true)
    case RTI => Enters(from) && to.stack.s == from.done.stack.s && to.pc == from.done.pc
      && to.p == from.done.p.(b := false, u := true)
    case _ => true
  }

  lemma SameBase(s: byte, t: byte, n: nat)
    requires n <= PAGE && Base(s, n) == Base(t, n)
    ensures s == t
  {
  }

  /** Where the pointer stood, at each side of an opening, relative to the start of the run. */
  lemma OpenedBase(c: Config, run: seq<Step>, j: nat, h: Held, below: seq<Held>)
    requires IsRun(c, run) && j < |run| && Opened(run, j, h, below)
    ensures |AllSaved(below)| <= PAGE
    ensures if h.Interrupted? then
        Enters(run[j]) && h == Interrupted(run[j].done.p, run[j].done.pc)
        && Base(run[j].done.stack.s, |AllSaved(below)|) == run[0].start.stack.s
      else
        Opens(NameOf(run[j])) && Matched(below, run[j].start, NameOf(run[j])).Some? && Mid(below, run[j]) == [h] + below
        && Base(run[j].start.stack.s, |AllSaved(below)|) == run[0].start.stack.s
  {
    hide Spares, AllSaved, Opcodes.Lookup, Taken, Base, Holds, Matched, Restores;
    StartHolds(c, run, j);
    var frames := Open(run[..j]).value;
    StepHolds(c, run[j], frames);
    FitsPage(run[j].start.stack, AllSaved(frames));
    FitsPage(run[j].done.stack, AllSaved(Mid(frames, run[j])));
  }

  lemma FitsPage(k: Stack, bytes: seq<byte>)
    requires Holds(k, bytes)
    ensures |bytes| <= PAGE
  {
  }

  /** In every bracketed run, each instruction that ends a bracket restores the
      pointer and the matching address or register, from every initial pointer. */
  lemma BracketEnds(c: Config, run: seq<Step>, k: nat) returns (j: nat)
    requires IsRun(c, run) && k < |run| && Open(run[..k + 1]).Some?
    requires Known(run[k].row.opcode) && Closes(NameOf(run[k]))
    ensures j < k && Known(run[j].row.opcode) && Ends(run, j, k)
  {
    hide Spares, AllSaved, Opcodes.Lookup, Taken, Base, Matched;
    assert run[..k + 1][..k] == run[..k];
    var frames := Open(run[..k]).value;
    MatchedShape(frames, run[k].start, NameOf(run[k]));
    var h, below := frames[0], Mid(frames, run[k]);
    assert frames == [] + [h] + below;
    j := OpenedBefore(run[..k], [], h, below);
    assert run[..k][..j] == run[..j];
    OpenedBase(c, run, j, h, below);
    StartHolds(c, run, k);
    StepHolds(c, run[k], frames);
    hide Open, Opened, Closes, MayStore;
    if h.Interrupted? {
      SameBase(run[j].done.stack.s, run[k].done.stack.s, |AllSaved(below)|);
    } else {
      SameBase(run[j].start.stack.s, run[k].done.stack.s, |AllSaved(below)|);
      OpenedValues(below, run[j], h);
    }
    hide IsRun, Holds;
    EndsMatched(run, j, k, h, below);
  }

  /** A bracket opened as h and closed over the same frames. */
  lemma EndsMatched(run: seq<Step>, j: nat, k: nat, h: Held, below: seq<Held>)
    requires j < |run| && k < |run| && Known(run[j].row.opcode) && Known(run[k].row.opcode) && Closes(NameOf(run[k]))
    requires Matched([h] + below, run[k].start, NameOf(run[k])).Some? && Restores([h] + below, NameOf(run[k]), run[k].done)
    requires if h.Interrupted? then
        Enters(run[j]) && h == Interrupted(run[j].done.p, run[j].done.pc) && run[k].done.stack.s == run[j].done.stack.s
      else
        && run[k].done.stack.s == run[j].start.stack.s && Opens(NameOf(run[j]))
        && h == match NameOf(run[j])
          case JSR => Call(run[j].start.pc)
          case PHA => Accumulator(run[j].start.a)
          case _ => Flags(run[j].start.p)
    ensures Ends(run, j, k)
  {
    hide Opcodes.Lookup, Plus;
    assert ([h] + below)[0] == h;
  }

  lemma OpenedValues(below: seq<Held>, s: Step, h: Held)
    requires Known(s.row.opcode) && Matched(below, s.start, NameOf(s)).Some?
    requires Opens(NameOf(s)) && Mid(below, s) == [h] + below
    ensures h == match NameOf(s)
      case JSR => Call(s.start.pc)
      case PHA => Accumulator(s.start.a)
      case _ => Flags(s.start.p)
  {
    assert Mid(below, s)[0] == h;
  }

  // ---- such runs exist ----

  lemma PushPullOpcodes()
    ensures Lookup(0x48) == Op(PHA, Imp) && Lookup(0x68) == Op(PLA, Imp)
  {}

  lemma PushPullCost(opcode: byte, pc: word, p: Status, x: byte, y: byte)
    requires opcode == 0x48 || opcode == 0x68
    ensures Cost(Instruction(opcode, pc, 0, p, x, y, None)) == Ok(if opcode == 0x48 then 3 else 4)
  {
    PushPullOpcodes();
    hide Opcodes.Lookup;
  }

  /** A step of PHA or PLA without events or requests. */
  lemma PushPullStep(c: Config, g: Guest, e: Effect)
    requires c.events == [] && g.index == 0 && g.time < CLOCK_LIMIT && !g.irq && !g.nmi && e.pointer == None
    requires g.pc in c.program && (c.program[g.pc] == Row(0x48, 0) || c.program[g.pc] == Row(0x68, 0))
    ensures Take(c, g, e).Ok?
    ensures var s := Take(c, g, e).value; var push := c.program[g.pc].opcode == 0x48;
      (s.start == g && s.effect == e && s.row == c.program[g.pc] && Decide(s.boundary).Nothing?
       && s.done.stack == (if push then Push(g.stack, g.a) else Pop(g.stack))
       && s.end == s.done.(time := g.time + (if push then 3 else 4), ordinal := g.ordinal + 1)
       && (if push then s.done.a == g.a else s.done.a == Top(g.stack))
       && s.done.pc == Plus(g.pc, 1) && s.done.index == 0 && !s.done.irq && !s.done.nmi)
  {
    PushPullOpcodes();
    PushPullCost(c.program[g.pc].opcode, g.pc, g.p, g.x, g.y);
    hide Opcodes.Lookup, Cost, Pack, Unpack, Push, Pop, Top, WithNZ, PushAll, Plus;
  }

  lemma PushThenPop(k: Stack, value: byte)
    ensures Top(Push(k, value)) == value && Pop(Push(k, value)).s == k.s
  {}

  lemma PushOpens(s: Step)
    requires s.row.opcode == 0x48 && !Enters(s)
    ensures Open([s]) == Some([Accumulator(s.start.a)])
  {
    PushPullOpcodes();
    hide Opcodes.Lookup, Holds;
    var none: seq<Held> := [];
    assert [s][..0] == [] && AllSaved(none) == [] && AllSaved([Accumulator(s.start.a)]) == [s.start.a];
    assert [Accumulator(s.start.a)] + none == [Accumulator(s.start.a)];
    assert Open([s][..0]) == Some(none) && Bracketed(none, s) && After(none, s) == [Accumulator(s.start.a)];
  }

  lemma PullCloses(first: Step, second: Step)
    requires Open([first]) == Some([Accumulator(first.start.a)])
    requires second.row.opcode == 0x68 && !Enters(second)
    ensures Open([first, second]) == Some([]) && Known(second.row.opcode) && Closes(NameOf(second))
  {
    PushPullOpcodes();
    hide Opcodes.Lookup, Holds;
    var open: seq<Held> := [Accumulator(first.start.a)];
    var none: seq<Held> := [];
    assert [first, second][..1] == [first] && open[1..] == none && AllSaved(none) == [];
    assert Bracketed(open, second) && After(open, second) == none;
  }

  /** Bracketed runs exist: from every state without requests, PHA and PLA one after the other form one. */
  lemma PushPullRuns(c: Config, g: Guest, e1: Effect, e2: Effect) returns (run: seq<Step>)
    requires Valid(c) && c.events == [] && g.index == 0 && g.time + 3 < CLOCK_LIMIT && !g.irq && !g.nmi
    requires g.pc in c.program && c.program[g.pc] == Row(0x48, 0)
    requires Plus(g.pc, 1) in c.program && c.program[Plus(g.pc, 1)] == Row(0x68, 0)
    requires e1.pointer == e2.pointer == None
    ensures |run| == 2 && run[0].start == g && IsRun(c, run) && Open(run) == Some([])
    ensures Known(run[1].row.opcode) && Closes(NameOf(run[1]))
    ensures run[1].end.a == g.a && run[1].end.stack.s == g.stack.s
  {
    hide Opcodes.Lookup, Take, Execute, Valid, Open, Closes, Push, Pop, Top;
    PushPullStep(c, g, e1);
    var first := Take(c, g, e1).value;
    PushPullStep(c, first.end, e2);
    var second := Take(c, first.end, e2).value;
    PushThenPop(g.stack, g.a);
    PushOpens(first);
    PullCloses(first, second);
    run := [first, second];
  }
}
