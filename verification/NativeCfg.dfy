/** Conservative direct-control-flow expansion of an observed code map
    (tools/native_cfg.py). */
module NativeCfg {
  import opened Bytes
  import opened Opcodes

  /** A queued visit: a PRG offset and the CPU address it is reached at. */
  datatype Visit = Visit(at: nat, pc: word)

  /** A direct edge whose bank mapping is not known. */
  datatype Edge = Edge(from: nat, target: word)

  datatype Error = UnsupportedOpcode | OverlappingInstructions

  /** The little-endian operand of the instruction at i; 0 for one-byte instructions. */
  function OperandAt(prg: seq<byte>, i: nat): word
    requires i < |prg| && i + Size(prg[i]) <= |prg|
  {
    if Size(prg[i]) == 3 then LittleEndian(prg[i + 1], prg[i + 2])
    else if Size(prg[i]) == 2 then prg[i + 1]
    else 0
  }

  /** The whole instruction at i is a documented one inside the program. */
  predicate Fits(prg: seq<byte>, i: nat) {
    i < |prg| && Known(prg[i]) && i + Size(prg[i]) <= |prg|
  }

  /** Execution may be followed through i: neither BRK nor SED. */
  predicate Live(prg: seq<byte>, i: nat) {
    Fits(prg, i) && Lookup(prg[i]).name != BRK && Lookup(prg[i]).name != SED
  }

  /** The PRG offset of a target seen from offset i at address pc, where the
      mapping does not depend on a bank register. */
  function Physical(i: nat, pc: word, target: word): Option<nat> {
    if target >= 0xE000 then Some(0x3E000 + target - 0xE000)
    else if 0x8000 <= pc < 0xC000 && 0x8000 <= target < 0xC000 then
      Some(i / 0x4000 * 0x4000 + target - 0x8000)
    else if 0xC000 <= pc < 0xE000 && 0xC000 <= target < 0xE000 then
      Some(i / 0x2000 * 0x2000 + target - 0xC000)
    else None
  }

  predicate Observed(counts: seq<nat>, i: nat) {
    i < |counts| && counts[i] > 0
  }

  /** Routines whose return site never ran after some observed call. */
  function NoReturn(prg: seq<byte>, counts: seq<nat>): set<word>
    requires |counts| == |prg|
  {
    set i {:trigger prg[i]} | 0 <= i < |prg| - 3 && counts[i] > 0 && prg[i] == 0x20 && counts[i + 3] == 0
      :: LittleEndian(prg[i + 1], prg[i + 2])
  }

  /** Addresses control can go to directly from the instruction at i, in queue order. */
  function Targets(prg: seq<byte>, noreturn: set<word>, i: nat, pc: word): seq<word>
    requires Fits(prg, i)
  {
    var op := Lookup(prg[i]);
    var target := OperandAt(prg, i);
    if op.name.RTS? || op.name.RTI? then []
    else
      (if op.mode == Rel then [BranchTarget(pc, prg[i + 1])] else [])
      + (if (op.name.JMP? || op.name.JSR?) && op.mode == Abs then [target] else [])
      + (if op.name == JMP || (op.name == JSR && target in noreturn) then []
         else [(pc + Size(prg[i])) % 0x1_0000])
  }

  /** The traced starts are known, complete and disjoint instructions. */
  ghost predicate ObservedLegal(prg: seq<byte>, counts: seq<nat>) {
    forall i: nat {:trigger Observed(counts, i)} :: Observed(counts, i) ==>
      (Fits(prg, i) && forall j: nat :: i < j < i + Size(prg[i]) && j < |counts| ==> counts[j] == 0)
  }

  // ---- one iteration of the worklist, as a function of the loop's variables ----

  datatype Walk = Walk(owner: seq<int>, starts: set<nat>, processed: set<nat>, pcs: seq<word>,
                       pending: seq<Visit>, inferred: seq<nat>, unresolved: seq<Edge>)

  predicate Shape(prg: seq<byte>, w: Walk) {
    && |w.owner| == |w.pcs| == |prg|
    && (forall i <- w.processed :: i < |prg|)
    && (forall v <- w.pending :: v.at < |prg|)
  }

  predicate Owned(prg: seq<byte>, owner: seq<int>, i: nat)
    requires |owner| == |prg| && Fits(prg, i)
  {
    exists j :: i <= j < i + Size(prg[i]) && owner[j] >= 0
  }

  function Claimed(owner: seq<int>, i: nat, n: nat): (r: seq<int>)
    requires i + n <= |owner|
    ensures |r| == |owner|
    ensures forall j :: 0 <= j < |r| ==> r[j] == if i <= j < i + n then i else owner[j]
  {
    owner[..i] + seq(n, _ => i) + owner[i + n..]
  }

  function Queue(size: nat, w: Walk, i: nat, pc: word, target: word): Walk {
    match Physical(i, pc, target)
    case None => w.(unresolved := w.unresolved + [Edge(i, target)])
    case Some(dest) => if dest < size then w.(pending := w.pending + [Visit(dest, target)]) else w
  }

  function QueueAll(size: nat, w: Walk, i: nat, pc: word, targets: seq<word>): Walk
    decreases |targets|
  {
    if targets == [] then w
    else QueueAll(size, Queue(size, w, i, pc, targets[0]), i, pc, targets[1..])
  }

  /** The popped visit is new, executable, and free to be a start. */
  predicate Follows(prg: seq<byte>, w: Walk)
    requires Shape(prg, w) && w.pending != []
  {
    var i := w.pending[0].at;
    i !in w.processed && Live(prg, i) && (i in w.starts || !Owned(prg, w.owner, i))
  }

  /** Pops a visit, marks it processed, and claims its bytes when it is a new start. */
  function Enter(prg: seq<byte>, w: Walk): Walk
    requires Shape(prg, w) && w.pending != []
  {
    var Visit(i, pc) := w.pending[0];
    var popped := w.(pending := w.pending[1..]);
    if i in w.processed then popped
    else
      var marked := popped.(processed := w.processed + {i});
      if Follows(prg, w) && i !in w.starts then
        marked.(owner := Claimed(w.owner, i, Size(prg[i])), starts := w.starts + {i},
                inferred := w.inferred + [i], pcs := w.pcs[i := pc])
      else marked
  }

  function Step(prg: seq<byte>, noreturn: set<word>, w: Walk): Walk
    requires Shape(prg, w) && w.pending != []
  {
    var Visit(i, pc) := w.pending[0];
    if Follows(prg, w) then QueueAll(|prg|, Enter(prg, w), i, pc, Targets(prg, noreturn, i, pc))
    else Enter(prg, w)
  }

  // ---- what every iteration keeps ----

  /** Claimed byte ranges are exactly those of the starts, and disjoint. */
  ghost predicate Ownership(prg: seq<byte>, w: Walk)
    requires Shape(prg, w)
  {
    && (forall i <- w.starts :: Fits(prg, i) && forall j :: i <= j < i + Size(prg[i]) ==> w.owner[j] == i)
    && (forall j {:trigger w.owner[j]} :: 0 <= j < |prg| && w.owner[j] >= 0 ==>
          w.owner[j] in w.starts && w.owner[j] <= j < w.owner[j] + Size(prg[w.owner[j]]))
  }

  ghost predicate Origins(prg: seq<byte>, counts: seq<nat>, pcs: seq<word>, w: Walk)
    requires Shape(prg, w) && |counts| == |pcs| == |prg|
  {
    && (forall i: nat :: i in w.starts <==> Observed(counts, i) || i in w.inferred)
    && (forall i <- w.inferred :: !Observed(counts, i) && i in w.processed && Live(prg, i))
    && (forall i: nat {:trigger w.pcs[i]} :: i < |prg| && i !in w.inferred ==> w.pcs[i] == pcs[i])
  }

  /** The first lead queue entries are the observed starts still to be visited. */
  ghost predicate Leading(counts: seq<nat>, pcs: seq<word>, w: Walk, lead: nat)
    requires |counts| == |pcs|
  {
    && lead <= |w.pending|
    && (forall k {:trigger w.pending[k]} :: 0 <= k < lead ==>
          var v := w.pending[k]; Observed(counts, v.at) && v.pc == pcs[v.at] && v.at !in w.processed)
    && (forall k, l :: 0 <= k < l < lead ==> w.pending[k].at != w.pending[l].at)
    && (forall i: nat :: Observed(counts, i) ==>
          i in w.processed || exists k :: 0 <= k < lead && w.pending[k].at == i)
  }

  /** A visited offset is a start, or one of the refusals applied to it. */
  ghost predicate Refused(prg: seq<byte>, owner: seq<int>, i: nat)
    requires |owner| == |prg| && i < |prg|
  {
    !Live(prg, i) || Owned(prg, owner, i)
  }

  ghost predicate Decided(prg: seq<byte>, w: Walk)
    requires Shape(prg, w)
  {
    forall i <- w.processed :: i in w.starts || Refused(prg, w.owner, i)
  }

  ghost predicate Waiting(pending: seq<Visit>, i: nat) {
    exists v <- pending :: v.at == i
  }

  ghost predicate Followed(size: nat, w: Walk, i: nat, pc: word, target: word) {
    match Physical(i, pc, target)
    case None => Edge(i, target) in w.unresolved
    case Some(dest) => dest < size ==> dest in w.processed || Waiting(w.pending, dest)
  }

  ghost predicate Closing(prg: seq<byte>, noreturn: set<word>, w: Walk)
    requires Shape(prg, w)
  {
    forall i <- w.processed | i in w.starts && Live(prg, i) ::
      forall t <- Targets(prg, noreturn, i, w.pcs[i]) :: Followed(|prg|, w, i, w.pcs[i], t)
  }

  /** Visit v is a direct successor of the start at q. */
  ghost predicate Successor(prg: seq<byte>, noreturn: set<word>, pcs: seq<word>, q: nat, v: Visit)
    requires |pcs| == |prg|
  {
    && Live(prg, q)
    && v.pc in Targets(prg, noreturn, q, pcs[q])
    && Physical(q, pcs[q], v.pc) == Some(v.at)
  }

  ghost predicate Justified(prg: seq<byte>, counts: seq<nat>, noreturn: set<word>, pcs: seq<word>,
                            inferred: seq<nat>, v: Visit)
    requires |pcs| == |prg|
  {
    exists q: nat :: (Observed(counts, q) || q in inferred) && Successor(prg, noreturn, pcs, q, v)
  }

  /** Every inferred start, and every queued visit past the leading ones, was
      reached from a start that was there before it. */
  ghost predicate Reached(prg: seq<byte>, counts: seq<nat>, noreturn: set<word>, w: Walk, lead: nat)
    requires Shape(prg, w)
  {
    && (forall k {:trigger w.inferred[k]} :: 0 <= k < |w.inferred| ==>
          w.inferred[k] < |prg|
          && Justified(prg, counts, noreturn, w.pcs, w.inferred[..k], Visit(w.inferred[k], w.pcs[w.inferred[k]])))
    && (forall k {:trigger w.pending[k]} :: lead <= k < |w.pending| ==>
          Justified(prg, counts, noreturn, w.pcs, w.inferred, w.pending[k]))
  }

  /** Only edges that have no static mapping are reported as unresolved. */
  ghost predicate Unresolved(prg: seq<byte>, noreturn: set<word>, w: Walk)
    requires Shape(prg, w)
  {
    forall e <- w.unresolved ::
      && e.from in w.starts && Live(prg, e.from)
      && e.target in Targets(prg, noreturn, e.from, w.pcs[e.from])
      && Physical(e.from, w.pcs[e.from], e.target).None?
  }

  ghost predicate Invariant(prg: seq<byte>, counts: seq<nat>, pcs: seq<word>, noreturn: set<word>, w: Walk, lead: nat) {
    && Shape(prg, w)
    && |counts| == |pcs| == |prg|
    && Ownership(prg, w)
    && Origins(prg, counts, pcs, w)
    && Leading(counts, pcs, w, lead)
    && Decided(prg, w)
    && Closing(prg, noreturn, w)
    && Reached(prg, counts, noreturn, w, lead)
    && Unresolved(prg, noreturn, w)
  }

  lemma QueueAllEffect(size: nat, w: Walk, i: nat, pc: word, targets: seq<word>)
    ensures var r := QueueAll(size, w, i, pc, targets);
      && r == w.(pending := r.pending, unresolved := r.unresolved)
      && w.pending <= r.pending
      && (forall k {:trigger r.pending[k]} :: |w.pending| <= k < |r.pending| ==>
            r.pending[k].at < size && r.pending[k].pc in targets
            && Physical(i, pc, r.pending[k].pc) == Some(r.pending[k].at))
      && (forall t <- targets :: match Physical(i, pc, t)
            case None => Edge(i, t) in r.unresolved
            case Some(dest) => dest < size ==> Visit(dest, t) in r.pending)
      && (forall e :: e in r.unresolved <==>
            (e in w.unresolved || (e.from == i && e.target in targets && Physical(i, pc, e.target).None?)))
    decreases |targets|
  {
    if targets != [] {
      var q := Queue(size, w, i, pc, targets[0]);
      var r := QueueAll(size, w, i, pc, targets);
      QueueAllEffect(size, q, i, pc, targets[1..]);
      assert forall v <- q.pending :: v in r.pending;
      match Physical(i, pc, targets[0])
      case None => assert Edge(i, targets[0]) in q.unresolved;
      case Some(dest) => assert dest < size ==> q.pending[|w.pending|] == Visit(dest, targets[0]);
    }
  }

  function Rest(lead: nat): nat {
    if lead > 0 then lead - 1 else 0
  }

  /** A visit that is followed carries the address its start is recorded at. */
  lemma FollowedAtItsOwnAddress(prg: seq<byte>, counts: seq<nat>, pcs: seq<word>, noreturn: set<word>, w: Walk, lead: nat)
    requires Invariant(prg, counts, pcs, noreturn, w, lead) && w.pending != [] && Follows(prg, w)
    ensures w.pending[0].at in w.starts ==> lead > 0 && w.pcs[w.pending[0].at] == w.pending[0].pc
    ensures w.pending[0].at !in w.starts ==> lead == 0
    ensures w.pending[0].at in Enter(prg, w).starts
    ensures Enter(prg, w).pcs[w.pending[0].at] == w.pending[0].pc
  {
  }

  lemma EnterKeepsOwnership(prg: seq<byte>, w: Walk)
    requires Shape(prg, w) && Ownership(prg, w) && w.pending != []
    ensures Shape(prg, Enter(prg, w)) && Ownership(prg, Enter(prg, w))
  {
  }

  lemma EnterKeepsOrigins(prg: seq<byte>, counts: seq<nat>, pcs: seq<word>, w: Walk)
    requires Shape(prg, w) && w.pending != [] && |counts| == |pcs| == |prg| && Origins(prg, counts, pcs, w)
    ensures Shape(prg, Enter(prg, w)) && Origins(prg, counts, pcs, Enter(prg, w))
  {
  }

  lemma EnterKeepsDecided(prg: seq<byte>, w: Walk)
    requires Shape(prg, w) && w.pending != [] && Decided(prg, w)
    ensures Shape(prg, Enter(prg, w)) && Decided(prg, Enter(prg, w))
  {
    var e := Enter(prg, w);
    forall i <- e.processed ensures i in e.starts || Refused(prg, e.owner, i) {
      if i in w.processed && i !in w.starts && Live(prg, i) {
        var j :| i <= j < i + Size(prg[i]) && w.owner[j] >= 0;
        assert e.owner[j] >= 0;
      }
    }
  }

  lemma EnterKeepsLeading(prg: seq<byte>, counts: seq<nat>, pcs: seq<word>, w: Walk, lead: nat)
    requires Shape(prg, w) && w.pending != [] && |counts| == |pcs| == |prg|
    requires Origins(prg, counts, pcs, w) && Leading(counts, pcs, w, lead)
    ensures Leading(counts, pcs, Enter(prg, w), Rest(lead))
  {
  }

  /** Closing, except for the visit just entered. */
  ghost predicate ClosingBut(prg: seq<byte>, noreturn: set<word>, w: Walk, but: nat)
    requires Shape(prg, w)
  {
    forall i <- w.processed | i in w.starts && Live(prg, i) && i != but ::
      forall t <- Targets(prg, noreturn, i, w.pcs[i]) :: Followed(|prg|, w, i, w.pcs[i], t)
  }

  lemma EnterKeepsClosing(prg: seq<byte>, noreturn: set<word>, w: Walk)
    requires Shape(prg, w) && w.pending != [] && Closing(prg, noreturn, w) && Shape(prg, Enter(prg, w))
    ensures ClosingBut(prg, noreturn, Enter(prg, w), w.pending[0].at)
    ensures w.pending[0].at in w.processed ==> Closing(prg, noreturn, Enter(prg, w))
  {
    var e := Enter(prg, w);
    var v := w.pending[0];
    forall i <- e.processed | i in e.starts && Live(prg, i) && (i != v.at || i in w.processed),
           t <- Targets(prg, noreturn, i, e.pcs[i])
      ensures Followed(|prg|, e, i, e.pcs[i], t)
    {
      assert i in w.processed && i in w.starts && e.pcs[i] == w.pcs[i];
      assert Followed(|prg|, w, i, w.pcs[i], t);
      var d := Physical(i, w.pcs[i], t);
      if d.Some? && Waiting(w.pending, d.value) && d.value != v.at {
        var u :| u in w.pending && u.at == d.value;
        assert u in e.pending;
      }
    }
  }

  lemma JustifiedCarries(prg: seq<byte>, counts: seq<nat>, noreturn: set<word>, pcs: seq<word>, pcs': seq<word>,
                         inferred: seq<nat>, inferred': seq<nat>, v: Visit)
    requires |pcs| == |pcs'| == |prg|
    requires forall q: nat :: q < |prg| && (Observed(counts, q) || q in inferred) ==> pcs'[q] == pcs[q]
    requires inferred <= inferred'
    requires Justified(prg, counts, noreturn, pcs, inferred, v)
    ensures Justified(prg, counts, noreturn, pcs', inferred', v)
  {
    var q: nat :| (Observed(counts, q) || q in inferred) && Successor(prg, noreturn, pcs, q, v);
    assert Successor(prg, noreturn, pcs', q, v);
  }

  lemma EnterExtends(prg: seq<byte>, counts: seq<nat>, pcs: seq<word>, w: Walk)
    requires Shape(prg, w) && w.pending != [] && |counts| == |pcs| == |prg| && Origins(prg, counts, pcs, w)
    ensures var e := Enter(prg, w);
      && Shape(prg, e)
      && w.inferred <= e.inferred
      && |e.inferred| <= |w.inferred| + 1
      && (|e.inferred| > |w.inferred| ==>
            Follows(prg, w) && w.pending[0].at !in w.starts && e.inferred[|w.inferred|] == w.pending[0].at)
      && e.pending == w.pending[1..]
      && e.unresolved == w.unresolved
      && (forall q: nat {:trigger e.pcs[q]} :: q < |prg| && q in w.starts ==> e.pcs[q] == w.pcs[q])
  {
  }

  lemma EnterKeepsInferredReached(prg: seq<byte>, counts: seq<nat>, pcs: seq<word>, noreturn: set<word>, w: Walk,
                                  lead: nat, k: nat)
    requires Invariant(prg, counts, pcs, noreturn, w, lead) && w.pending != []
    requires Shape(prg, Enter(prg, w)) && k < |Enter(prg, w).inferred|
    ensures var e := Enter(prg, w);
      e.inferred[k] < |prg|
      && Justified(prg, counts, noreturn, e.pcs, e.inferred[..k], Visit(e.inferred[k], e.pcs[e.inferred[k]]))
  {
    var e := Enter(prg, w);
    EnterExtends(prg, counts, pcs, w);
    assert e.inferred[..k] == w.inferred[..k];
    var u := Visit(e.inferred[k], e.pcs[e.inferred[k]]);
    if k == |w.inferred| {
      FollowedAtItsOwnAddress(prg, counts, pcs, noreturn, w, lead);
      assert w.inferred[..k] == w.inferred && u == w.pending[0];
    }
    JustifiedCarries(prg, counts, noreturn, w.pcs, e.pcs, w.inferred[..k], e.inferred[..k], u);
  }

  lemma EnterKeepsReached(prg: seq<byte>, counts: seq<nat>, pcs: seq<word>, noreturn: set<word>, w: Walk, lead: nat)
    requires Invariant(prg, counts, pcs, noreturn, w, lead) && w.pending != []
    ensures Shape(prg, Enter(prg, w)) && Reached(prg, counts, noreturn, Enter(prg, w), Rest(lead))
  {
    var e := Enter(prg, w);
    EnterExtends(prg, counts, pcs, w);
    forall k {:trigger e.inferred[k]} | 0 <= k < |e.inferred|
      ensures e.inferred[k] < |prg|
        && Justified(prg, counts, noreturn, e.pcs, e.inferred[..k], Visit(e.inferred[k], e.pcs[e.inferred[k]]))
    {
      EnterKeepsInferredReached(prg, counts, pcs, noreturn, w, lead, k);
    }
    forall k {:trigger e.pending[k]} | Rest(lead) <= k < |e.pending|
      ensures Justified(prg, counts, noreturn, e.pcs, e.inferred, e.pending[k])
    {
      assert e.pending[k] == w.pending[k + 1];
      JustifiedCarries(prg, counts, noreturn, w.pcs, e.pcs, w.inferred, e.inferred, e.pending[k]);
    }
  }

  lemma EnterKeepsUnresolved(prg: seq<byte>, counts: seq<nat>, pcs: seq<word>, noreturn: set<word>, w: Walk)
    requires Shape(prg, w) && w.pending != [] && |counts| == |pcs| == |prg| && Origins(prg, counts, pcs, w)
    requires Unresolved(prg, noreturn, w)
    ensures Shape(prg, Enter(prg, w)) && Unresolved(prg, noreturn, Enter(prg, w))
  {
    EnterExtends(prg, counts, pcs, w);
    var e := Enter(prg, w);
    forall d <- e.unresolved
      ensures d.from in e.starts && Live(prg, d.from) && d.target in Targets(prg, noreturn, d.from, e.pcs[d.from])
        && Physical(d.from, e.pcs[d.from], d.target).None?
    {
      assert d in w.unresolved && e.pcs[d.from] == w.pcs[d.from];
    }
  }

  lemma QueueAllKeepsClosing(prg: seq<byte>, noreturn: set<word>, e: Walk, i: nat, pc: word)
    requires Shape(prg, e) && Live(prg, i) && e.pcs[i] == pc && ClosingBut(prg, noreturn, e, i)
    ensures var r := QueueAll(|prg|, e, i, pc, Targets(prg, noreturn, i, pc));
      Shape(prg, r) && Closing(prg, noreturn, r)
  {
    var targets := Targets(prg, noreturn, i, pc);
    var r := QueueAll(|prg|, e, i, pc, targets);
    QueueAllEffect(|prg|, e, i, pc, targets);
    assert forall v <- e.pending :: v in r.pending;
    forall q <- r.processed | q in r.starts && Live(prg, q), t <- Targets(prg, noreturn, q, r.pcs[q])
      ensures Followed(|prg|, r, q, r.pcs[q], t)
    {
      if q != i {
        assert Followed(|prg|, e, q, e.pcs[q], t);
      }
    }
  }

  lemma QueueAllKeepsReached(prg: seq<byte>, counts: seq<nat>, noreturn: set<word>, e: Walk, lead: nat, i: nat, pc: word)
    requires Shape(prg, e) && Live(prg, i) && e.pcs[i] == pc && lead <= |e.pending|
    requires Observed(counts, i) || i in e.inferred
    requires Reached(prg, counts, noreturn, e, lead)
    ensures var r := QueueAll(|prg|, e, i, pc, Targets(prg, noreturn, i, pc));
      Shape(prg, r) && Reached(prg, counts, noreturn, r, lead)
  {
    var targets := Targets(prg, noreturn, i, pc);
    var r := QueueAll(|prg|, e, i, pc, targets);
    QueueAllEffect(|prg|, e, i, pc, targets);
    forall k {:trigger r.pending[k]} | lead <= k < |r.pending|
      ensures Justified(prg, counts, noreturn, r.pcs, r.inferred, r.pending[k])
    {
      if k < |e.pending| {
        assert r.pending[k] == e.pending[k];
      } else {
        assert Successor(prg, noreturn, r.pcs, i, r.pending[k]);
      }
    }
  }

  lemma QueueAllKeepsLeading(size: nat, counts: seq<nat>, pcs: seq<word>, e: Walk, lead: nat, i: nat, pc: word,
                             targets: seq<word>)
    requires |counts| == |pcs| && Leading(counts, pcs, e, lead)
    ensures Leading(counts, pcs, QueueAll(size, e, i, pc, targets), lead)
  {
    var r := QueueAll(size, e, i, pc, targets);
    QueueAllEffect(size, e, i, pc, targets);
    assert forall k :: 0 <= k < lead ==> r.pending[k] == e.pending[k];
  }

  lemma QueueAllKeepsUnresolved(prg: seq<byte>, noreturn: set<word>, e: Walk, i: nat, pc: word)
    requires Shape(prg, e) && Live(prg, i) && e.pcs[i] == pc && i in e.starts && Unresolved(prg, noreturn, e)
    ensures var r := QueueAll(|prg|, e, i, pc, Targets(prg, noreturn, i, pc));
      Shape(prg, r) && Unresolved(prg, noreturn, r)
  {
    QueueAllEffect(|prg|, e, i, pc, Targets(prg, noreturn, i, pc));
  }

  /** Every iteration of the worklist keeps the whole invariant. */
  lemma StepKeepsInvariant(prg: seq<byte>, counts: seq<nat>, pcs: seq<word>, noreturn: set<word>, w: Walk, lead: nat)
    requires Invariant(prg, counts, pcs, noreturn, w, lead) && w.pending != []
    ensures Invariant(prg, counts, pcs, noreturn, Step(prg, noreturn, w), Rest(lead))
  {
    var e := Enter(prg, w);
    EnterKeepsOwnership(prg, w);
    EnterKeepsOrigins(prg, counts, pcs, w);
    EnterKeepsDecided(prg, w);
    EnterKeepsLeading(prg, counts, pcs, w, lead);
    EnterKeepsClosing(prg, noreturn, w);
    EnterKeepsReached(prg, counts, pcs, noreturn, w, lead);
    EnterKeepsUnresolved(prg, counts, pcs, noreturn, w);
    if Follows(prg, w) {
      FollowedAtItsOwnAddress(prg, counts, pcs, noreturn, w, lead);
      var Visit(i, pc) := w.pending[0];
      FollowKeepsInvariant(prg, counts, pcs, noreturn, e, Rest(lead), i, pc);
    }
  }

  lemma FollowKeepsInvariant(prg: seq<byte>, counts: seq<nat>, pcs: seq<word>, noreturn: set<word>, e: Walk,
                             lead: nat, i: nat, pc: word)
    requires Shape(prg, e) && |counts| == |pcs| == |prg|
    requires Ownership(prg, e) && Origins(prg, counts, pcs, e) && Leading(counts, pcs, e, lead) && Decided(prg, e)
    requires ClosingBut(prg, noreturn, e, i) && Reached(prg, counts, noreturn, e, lead) && Unresolved(prg, noreturn, e)
    requires i in e.starts && Live(prg, i) && e.pcs[i] == pc
    ensures Invariant(prg, counts, pcs, noreturn, QueueAll(|prg|, e, i, pc, Targets(prg, noreturn, i, pc)), lead)
  {
    var targets := Targets(prg, noreturn, i, pc);
    QueueAllEffect(|prg|, e, i, pc, targets);
    QueueAllKeepsLeading(|prg|, counts, pcs, e, lead, i, pc, targets);
    QueueAllKeepsClosing(prg, noreturn, e, i, pc);
    QueueAllKeepsReached(prg, counts, noreturn, e, lead, i, pc);
    QueueAllKeepsUnresolved(prg, noreturn, e, i, pc);
    var r := QueueAll(|prg|, e, i, pc, targets);
    assert Ownership(prg, r) && Origins(prg, counts, pcs, r) && Decided(prg, r);
  }

  lemma StepProgress(prg: seq<byte>, noreturn: set<word>, w: Walk)
    requires Shape(prg, w) && w.pending != []
    ensures var s := Step(prg, noreturn, w);
      w.processed < s.processed || (s.processed == w.processed && |s.pending| < |w.pending|)
  {
    var Visit(i, pc) := w.pending[0];
    if Follows(prg, w) {
      QueueAllEffect(|prg|, Enter(prg, w), i, pc, Targets(prg, noreturn, i, pc));
    }
    if i !in w.processed {
      assert i in Step(prg, noreturn, w).processed;
    }
  }

  // ---- the result ----

  datatype Outcome =
    | Illegal(error: Error)
    | Expanded(counts: seq<int>, inferred: seq<nat>, unresolved: seq<Edge>, noreturn: set<word>)

  predicate Start(counts: seq<int>, i: nat) {
    i < |counts| && counts[i] != 0
  }

  /** Every marked offset begins a documented instruction, and no two overlap. */
  ghost predicate CodeMap(prg: seq<byte>, counts: seq<int>) {
    && |counts| == |prg|
    && forall i: nat {:trigger Start(counts, i)} :: Start(counts, i) ==>
         (Fits(prg, i) && forall j: nat :: i < j < i + Size(prg[i]) ==> !Start(counts, j))
  }

  /** Offset d could not become a start: no executable instruction fits there,
      or its bytes run into another start. */
  ghost predicate Barred(prg: seq<byte>, counts: seq<int>, d: nat) {
    !Live(prg, d) || exists s: nat :: s != d && Start(counts, s) && Fits(prg, s) && Meet(prg, s, d)
  }

  predicate Meet(prg: seq<byte>, s: nat, d: nat)
    requires Fits(prg, s) && Fits(prg, d)
  {
    s < d + Size(prg[d]) && d < s + Size(prg[s])
  }

  /** Each direct successor of each executable start is reported unresolved, lies
      outside the program, is itself a start, or was barred from being one. */
  ghost predicate Closed(prg: seq<byte>, pcs: seq<word>, r: Outcome)
    requires r.Expanded? && |pcs| == |prg|
  {
    forall i: nat {:trigger Start(r.counts, i)} :: Start(r.counts, i) && Live(prg, i) ==>
      forall t <- Targets(prg, r.noreturn, i, pcs[i]) ::
        match Physical(i, pcs[i], t)
        case None => Edge(i, t) in r.unresolved
        case Some(d) => d >= |prg| || Start(r.counts, d) || Barred(prg, r.counts, d)
  }

  ghost predicate IsExpansion(prg: seq<byte>, counts: seq<nat>, pcs: seq<word>, pcs': seq<word>, r: Outcome)
    requires r.Expanded? && |counts| == |pcs| == |pcs'| == |prg|
  {
    && r.noreturn == NoReturn(prg, counts)
    && CodeMap(prg, r.counts)
    && (forall i: nat {:trigger r.counts[i]} {:trigger Observed(counts, i)} :: i < |prg| ==>
          r.counts[i] == if Observed(counts, i) then counts[i] else if i in r.inferred then -1 else 0)
    && (forall i <- r.inferred :: i < |prg| && !Observed(counts, i) && Live(prg, i))
    && (forall i: nat {:trigger pcs'[i]} :: i < |prg| && i !in r.inferred ==> pcs'[i] == pcs[i])
    && Closed(prg, pcs', r)
    && (forall k {:trigger r.inferred[k]} :: 0 <= k < |r.inferred| ==>
          r.inferred[k] < |prg| && Justified(prg, counts, r.noreturn, pcs', r.inferred[..k],
                                             Visit(r.inferred[k], pcs'[r.inferred[k]])))
    && (forall e <- r.unresolved :: Start(r.counts, e.from) && Live(prg, e.from)
          && e.target in Targets(prg, r.noreturn, e.from, pcs'[e.from])
          && Physical(e.from, pcs'[e.from], e.target).None?)
  }

  ghost predicate Marked(counts: seq<int>, observed: seq<nat>, w: Walk) {
    && |counts| == |observed| == |w.owner|
    && forall i: nat {:trigger counts[i]} {:trigger Observed(observed, i)} :: i < |counts| ==>
         counts[i] == if Observed(observed, i) then observed[i] else if i in w.inferred then -1 else 0
  }

  lemma MarkedStarts(prg: seq<byte>, counts: seq<nat>, pcs: seq<word>, w: Walk, result: seq<int>)
    requires Shape(prg, w) && |counts| == |pcs| == |prg|
    requires Origins(prg, counts, pcs, w) && Ownership(prg, w) && Marked(result, counts, w)
    ensures forall i: nat :: Start(result, i) <==> i in w.starts
    ensures CodeMap(prg, result)
  {
    forall i: nat ensures Start(result, i) <==> i in w.starts {
    }
    forall i: nat, j: nat | Start(result, i) && i < j < i + Size(prg[i]) ensures !Start(result, j) {
      assert w.owner[j] == i;
    }
  }

  lemma FinishedIsClosed(prg: seq<byte>, counts: seq<nat>, pcs: seq<word>, noreturn: set<word>, w: Walk, result: seq<int>)
    requires Invariant(prg, counts, pcs, noreturn, w, 0) && w.pending == [] && Marked(result, counts, w)
    ensures Closed(prg, w.pcs, Expanded(result, w.inferred, w.unresolved, noreturn))
  {
    MarkedStarts(prg, counts, pcs, w, result);
    forall i: nat | Start(result, i) && Live(prg, i)
      ensures forall t <- Targets(prg, noreturn, i, w.pcs[i]) ::
        match Physical(i, w.pcs[i], t)
        case None => Edge(i, t) in w.unresolved
        case Some(d) => d >= |prg| || Start(result, d) || Barred(prg, result, d)
    {
      assert i in w.processed;
      forall t <- Targets(prg, noreturn, i, w.pcs[i])
        ensures match Physical(i, w.pcs[i], t)
          case None => Edge(i, t) in w.unresolved
          case Some(d) => d >= |prg| || Start(result, d) || Barred(prg, result, d)
      {
        assert Followed(|prg|, w, i, w.pcs[i], t);
        var d := Physical(i, w.pcs[i], t);
        if d.Some? && d.value < |prg| && d.value !in w.starts {
          RefusedIsBarred(prg, w, result, d.value);
        }
      }
    }
  }

  lemma RefusedIsBarred(prg: seq<byte>, w: Walk, result: seq<int>, d: nat)
    requires Shape(prg, w) && Ownership(prg, w) && d < |prg| && d !in w.starts && Refused(prg, w.owner, d)
    requires forall i: nat :: Start(result, i) <==> i in w.starts
    ensures Barred(prg, result, d)
  {
    if Live(prg, d) {
      var j :| d <= j < d + Size(prg[d]) && w.owner[j] >= 0;
      var s: nat := w.owner[j];
      assert Start(result, s) && Meet(prg, s, d);
    }
  }

  /** The walk the worklist starts from. */
  ghost predicate Initial(prg: seq<byte>, counts: seq<nat>, pcs: seq<word>, w: Walk) {
    && Shape(prg, w) && |counts| == |pcs| == |prg|
    && (forall i: nat :: i in w.starts <==> Observed(counts, i))
    && Ownership(prg, w)
    && w.pcs == pcs && w.processed == {} && w.inferred == [] && w.unresolved == []
    && (forall k {:trigger w.pending[k]} :: 0 <= k < |w.pending| ==>
          Observed(counts, w.pending[k].at) && w.pending[k].pc == pcs[w.pending[k].at])
    && (forall k, l :: 0 <= k < l < |w.pending| ==> w.pending[k].at < w.pending[l].at)
    && (forall i: nat :: Observed(counts, i) ==> exists k :: 0 <= k < |w.pending| && w.pending[k].at == i)
  }

  lemma InitialInvariant(prg: seq<byte>, counts: seq<nat>, pcs: seq<word>, noreturn: set<word>, w: Walk)
    requires Initial(prg, counts, pcs, w)
    ensures Invariant(prg, counts, pcs, noreturn, w, |w.pending|)
  {
  }

  ghost predicate ClaimedBelow(prg: seq<byte>, counts: seq<nat>, owner: seq<int>, starts: set<nat>, bound: nat) {
    && |owner| == |counts| == |prg|
    && (forall i: nat :: i in starts <==> Observed(counts, i) && i < bound)
    && (forall i <- starts :: Fits(prg, i) && forall j :: i <= j < i + Size(prg[i]) ==> owner[j] == i)
    && (forall j {:trigger owner[j]} :: 0 <= j < |prg| && owner[j] >= 0 ==>
          owner[j] in starts && owner[j] <= j < owner[j] + Size(prg[owner[j]]))
    && (forall j {:trigger owner[j]} :: 0 <= j < |prg| ==> owner[j] >= -1)
  }

  lemma ClaimedIsLegal(prg: seq<byte>, counts: seq<nat>, owner: seq<int>, starts: set<nat>)
    requires ClaimedBelow(prg, counts, owner, starts, |prg|)
    ensures ObservedLegal(prg, counts)
  {
    forall i: nat, j: nat | Observed(counts, i) && i < j < i + Size(prg[i]) && j < |counts| ensures counts[j] == 0 {
      assert i in starts && owner[j] == i;
      assert Observed(counts, j) <==> j in starts;
    }
  }

  predicate Free(owner: seq<int>, i: nat, n: nat) {
    i + n <= |owner| && forall j :: i <= j < i + n ==> owner[j] == -1
  }

  lemma ClaimExtends(prg: seq<byte>, counts: seq<nat>, owner: seq<int>, starts: set<nat>, i: nat)
    requires ClaimedBelow(prg, counts, owner, starts, i) && Observed(counts, i)
    requires Known(prg[i]) && Free(owner, i, Size(prg[i]))
    ensures ClaimedBelow(prg, counts, Claimed(owner, i, Size(prg[i])), starts + {i}, i + 1)
  {
    var owner' := Claimed(owner, i, Size(prg[i]));
    forall s <- starts + {i}, j | s <= j < s + Size(prg[s]) ensures Fits(prg, s) && owner'[j] == s {
      if s != i {
        assert owner[j] == s;
      }
    }
    forall j {:trigger owner'[j]} | 0 <= j < |prg| && owner'[j] >= 0
      ensures owner'[j] in starts + {i} && owner'[j] <= j < owner'[j] + Size(prg[owner'[j]])
    {
      if owner'[j] != i {
        assert owner'[j] == owner[j];
      }
    }
  }

  lemma CollisionIsIllegal(prg: seq<byte>, counts: seq<nat>, owner: seq<int>, starts: set<nat>, i: nat)
    requires ClaimedBelow(prg, counts, owner, starts, i) && Observed(counts, i)
    requires Known(prg[i]) && !Free(owner, i, Size(prg[i]))
    ensures !ObservedLegal(prg, counts)
  {
    if i + Size(prg[i]) <= |owner| {
      var j :| i <= j < i + Size(prg[i]) && owner[j] != -1;
      var o: nat := owner[j];
      assert Observed(counts, o) && o < i < o + Size(prg[o]);
      assert counts[i] != 0;
    }
  }

  method ClaimRange(owner: array<int>, i: nat, n: nat) returns (free: bool)
    modifies owner
    ensures free == Free(old(owner[..]), i, n)
    ensures free ==> owner[..] == Claimed(old(owner[..]), i, n)
  {
    for j := i to i + n
      invariant j <= owner.Length || j == i
      invariant forall k :: i <= k < j ==> old(owner[k]) == -1 && owner[k] == i
      invariant forall k :: 0 <= k < owner.Length && !(i <= k < j) ==> owner[k] == old(owner[k])
    {
      if j >= owner.Length || owner[j] != -1 {
        return false;
      }
      owner[j] := i;
    }
    return i + n <= owner.Length;
  }

  /** Claims the bytes of every traced instruction, in ascending order. */
  method ClaimObserved(prg: seq<byte>, counts: seq<nat>) returns (error: Option<Error>, owner: array<int>, starts: set<nat>)
    requires |counts| == |prg|
    ensures fresh(owner)
    ensures error.None? <==> ObservedLegal(prg, counts)
    ensures error.None? ==> ClaimedBelow(prg, counts, owner[..], starts, |prg|)
    ensures error == Some(UnsupportedOpcode) ==> exists i: nat :: Observed(counts, i) && !Known(prg[i])
  {
    owner := new int[|prg|](_ => -1);
    starts := {};
    for i := 0 to |prg|
      invariant ClaimedBelow(prg, counts, owner[..], starts, i)
    {
      if counts[i] > 0 {
        assert Observed(counts, i);
        if !Known(prg[i]) {
          return Some(UnsupportedOpcode), owner, starts;
        }
        ghost var before := owner[..];
        var free := ClaimRange(owner, i, Size(prg[i]));
        if !free {
          CollisionIsIllegal(prg, counts, before, starts, i);
          return Some(OverlappingInstructions), owner, starts;
        }
        ClaimExtends(prg, counts, before, starts, i);
        starts := starts + {i};
      }
    }
    ClaimedIsLegal(prg, counts, owner[..], starts);
    error := None;
  }

  lemma FinishedIsExpansion(prg: seq<byte>, counts: seq<nat>, pcs: seq<word>, noreturn: set<word>, w: Walk, result: seq<int>)
    requires Invariant(prg, counts, pcs, noreturn, w, 0) && w.pending == [] && Marked(result, counts, w)
    requires noreturn == NoReturn(prg, counts)
    ensures IsExpansion(prg, counts, pcs, w.pcs, Expanded(result, w.inferred, w.unresolved, noreturn))
  {
    MarkedStarts(prg, counts, pcs, w, result);
    FinishedIsClosed(prg, counts, pcs, noreturn, w, result);
  }

  method InitialQueue(prg: seq<byte>, counts: seq<nat>, pcs: array<word>) returns (pending: seq<Visit>)
    requires |counts| == |prg| == pcs.Length
    ensures forall k {:trigger pending[k]} :: 0 <= k < |pending| ==>
      pending[k].at < |prg| && Observed(counts, pending[k].at) && pending[k].pc == pcs[pending[k].at]
    ensures forall k, l :: 0 <= k < l < |pending| ==> pending[k].at < pending[l].at
    ensures forall i: nat :: Observed(counts, i) ==> exists k :: 0 <= k < |pending| && pending[k].at == i
  {
    pending := [];
    for i := 0 to |prg|
      invariant forall k {:trigger pending[k]} :: 0 <= k < |pending| ==>
        pending[k].at < i && Observed(counts, pending[k].at) && pending[k].pc == pcs[pending[k].at]
      invariant forall k, l :: 0 <= k < l < |pending| ==> pending[k].at < pending[l].at
      invariant forall o: nat :: Observed(counts, o) && o < i ==> exists k :: 0 <= k < |pending| && pending[k].at == o
    {
      if counts[i] > 0 {
        ghost var before := pending;
        pending := pending + [Visit(i, pcs[i])];
        assert pending[|before|].at == i;
        assert forall k :: 0 <= k < |before| ==> pending[k] == before[k];
      }
    }
  }

  method MarkInferred(counts: seq<nat>, inferred: seq<nat>) returns (result: seq<int>)
    requires forall i <- inferred :: i < |counts| && !Observed(counts, i)
    ensures |result| == |counts|
    ensures forall i: nat {:trigger result[i]} {:trigger Observed(counts, i)} :: i < |counts| ==>
      result[i] == if Observed(counts, i) then counts[i] else if i in inferred then -1 else 0
  {
    result := counts;
    for k := 0 to |inferred|
      invariant |result| == |counts|
      invariant forall i: nat {:trigger result[i]} :: i < |counts| ==>
        result[i] == if i in inferred[..k] then -1 else counts[i]
    {
      assert inferred[k] in inferred && inferred[..k + 1] == inferred[..k] + [inferred[k]];
      result := result[inferred[k] := -1];
    }
    assert inferred[..|inferred|] == inferred;
  }

  /** Claims a newly reached instruction unless one of its bytes has an owner. */
  method ClaimUnowned(owner: array<int>, i: nat, n: nat) returns (free: bool)
    requires i + n <= owner.Length
    modifies owner
    ensures free == !(exists j :: i <= j < i + n && old(owner[j]) >= 0)
    ensures owner[..] == if free then Claimed(old(owner[..]), i, n) else old(owner[..])
  {
    for j := i to i + n
      invariant forall k :: i <= k < j ==> owner[k] < 0
    {
      if owner[j] >= 0 {
        return false;
      }
    }
    for j := i to i + n
      invariant forall k :: i <= k < j ==> owner[k] == i
      invariant forall k :: 0 <= k < owner.Length && !(i <= k < j) ==> owner[k] == old(owner[k])
    {
      owner[j] := i;
    }
    free := true;
  }

  method QueueTargets(size: nat, pending: seq<Visit>, unresolved: seq<Edge>, i: nat, pc: word, targets: seq<word>,
                      ghost w: Walk) returns (pending': seq<Visit>, unresolved': seq<Edge>)
    requires w.pending == pending && w.unresolved == unresolved
    ensures w.(pending := pending', unresolved := unresolved') == QueueAll(size, w, i, pc, targets)
  {
    pending', unresolved' := pending, unresolved;
    ghost var q := w;
    for k := 0 to |targets|
      invariant q == w.(pending := pending', unresolved := unresolved')
      invariant QueueAll(size, q, i, pc, targets[k..]) == QueueAll(size, w, i, pc, targets)
    {
      assert targets[k..][1..] == targets[k + 1..];
      match Physical(i, pc, targets[k]) {
        case None => unresolved' := unresolved' + [Edge(i, targets[k])];
        case Some(dest) =>
          if dest < size {
            pending' := pending' + [Visit(dest, targets[k])];
          }
      }
      q := Queue(size, q, i, pc, targets[k]);
    }
  }

  ghost function Offsets(n: nat): (r: set<nat>)
    ensures forall i: nat :: i in r <==> i < n
  {
    if n == 0 then {} else Offsets(n - 1) + {n - 1}
  }

  /** One iteration: the variables before are those of w, the ones after those of its Step. */
  method VisitNext(prg: seq<byte>, noreturn: set<word>, owner: array<int>, pcs: array<word>, starts: set<nat>,
                   processed: set<nat>, pending: seq<Visit>, inferred: seq<nat>, unresolved: seq<Edge>)
    returns (starts': set<nat>, processed': set<nat>, pending': seq<Visit>, inferred': seq<nat>, unresolved': seq<Edge>)
    requires pending != [] && owner.Length == pcs.Length == |prg|
    requires Shape(prg, Walk(owner[..], starts, processed, pcs[..], pending, inferred, unresolved))
    modifies owner, pcs
    ensures Walk(owner[..], starts', processed', pcs[..], pending', inferred', unresolved')
      == old(Step(prg, noreturn, Walk(owner[..], starts, processed, pcs[..], pending, inferred, unresolved)))
  {
    ghost var w := Walk(owner[..], starts, processed, pcs[..], pending, inferred, unresolved);
    var Visit(i, pc) := pending[0];
    starts', processed', inferred', unresolved' := starts, processed, inferred, unresolved;
    pending' := pending[1..];
    if i in processed {
      return;
    }
    processed' := processed + {i};
    if !Live(prg, i) {
      return;
    }
    if i !in starts {
      var free := ClaimUnowned(owner, i, Size(prg[i]));
      if !free {
        return;
      }
      starts' := starts + {i};
      inferred' := inferred + [i];
      pcs[i] := pc;
    }
    pending', unresolved' := QueueTargets(|prg|, pending', unresolved, i, pc, Targets(prg, noreturn, i, pc), Enter(prg, w));
  }

  /** Grows the traced starts along direct control flow until nothing is left to visit. */
  method Expand(prg: seq<byte>, counts: seq<nat>, pcs: array<word>) returns (r: Outcome)
    requires |counts| == |prg| == pcs.Length
    modifies pcs
    ensures r.Illegal? <==> !ObservedLegal(prg, counts)
    ensures r.Illegal? ==> pcs[..] == old(pcs[..])
    ensures r == Illegal(UnsupportedOpcode) ==> exists i: nat :: Observed(counts, i) && !Known(prg[i])
    ensures r.Expanded? ==> IsExpansion(prg, counts, old(pcs[..]), pcs[..], r)
  {
    var error, owner, starts := ClaimObserved(prg, counts);
    if error.Some? {
      return Illegal(error.value);
    }
    var noreturn := NoReturn(prg, counts);
    var pending := InitialQueue(prg, counts, pcs);
    var processed: set<nat>, inferred: seq<nat>, unresolved: seq<Edge> := {}, [], [];
    ghost var lead: nat := |pending|;
    ghost var w := Walk(owner[..], starts, processed, pcs[..], pending, inferred, unresolved);
    InitialInvariant(prg, counts, old(pcs[..]), noreturn, w);
    while pending != []
      invariant w == Walk(owner[..], starts, processed, pcs[..], pending, inferred, unresolved)
      invariant Invariant(prg, counts, old(pcs[..]), noreturn, w, lead)
      invariant fresh(owner)
      decreases Offsets(|prg|) - processed, |pending|
    {
      ghost var next := Step(prg, noreturn, w);
      StepKeepsInvariant(prg, counts, old(pcs[..]), noreturn, w, lead);
      StepProgress(prg, noreturn, w);
      starts, processed, pending, inferred, unresolved :=
        VisitNext(prg, noreturn, owner, pcs, starts, processed, pending, inferred, unresolved);
      lead := Rest(lead);
      w := next;
    }
    var result := MarkInferred(counts, inferred);
    FinishedIsExpansion(prg, counts, old(pcs[..]), noreturn, w, result);
    r := Expanded(result, inferred, unresolved, noreturn);
  }
}
