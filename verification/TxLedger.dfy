/** Conservation over whole runs of the transmit path, all access categories together: every packet
    that went in is in one software queue, hangs on one ring cell, or has been released once. */
module TxLedger {
  import opened Fragment
  import opened TxRing
  import opened TxPath
  import opened TxAdapter

  /** One access category. */
  datatype Category = Category(queue: seq<Packet>, ring: Ring)

  /** `pending` is PendingNdisPacketCount. The rest is history: what was handed in, what skb_clone
      made, and what was released. */
  datatype State = State(cats: seq<Category>, pending: int, taken: seq<Packet>, clones: seq<Packet>, released: seq<Packet>)

  datatype Step =
    | Submit(i: nat, p: Packet, skbNull: bool, threshold: nat, rtsThreshold: nat)
    | Send(i: nat, envs: seq<Env>)
    | SendControlFrame(i: nat)
    | NicStep(i: nat, j: nat)
    | DmaDoneStep(i: nat)
    | CleanUp(i: nat)

  ghost predicate Enabled(s: State, step: Step) {
    && step.i < |s.cats|
    && Bounds(s.cats[step.i].ring)
    && match step
       case Submit(_, _, _, threshold, _) => U32(threshold - LENGTH_802_11 - LENGTH_CRC) != 0
       case NicStep(i, j) =>
         // oldest first
         exists len: nat, done: nat :: OldestAtNic(s.cats[i].ring, len, done, j)
       case _ => true
  }

  ghost predicate OldestAtNic(r: Ring, len: nat, done: nat, j: nat) {
    RingInv(r, len, done) && done < len && j == At(r, done)
  }

  ghost function Put(s: State, i: nat, c: Category, released: seq<Packet>, clones: seq<Packet>): State
    requires i < |s.cats|
  {
    s.(cats := s.cats[i := c], released := s.released + released, clones := s.clones + clones,
       pending := s.pending - CountedIn(released))
  }

  ghost function Apply(s: State, step: Step): State
    requires Enabled(s, step)
  {
    var i := step.i;
    var c := s.cats[i];
    match step
    case Submit(_, p, skbNull, threshold, rtsThreshold) =>
      // the count goes up before RTMPSendPacket, for protocol-layer packets only
      var x := SendPacket(c.queue, p, skbNull, threshold, rtsThreshold);
      Put(s.(pending := s.pending + Counted(p), taken := s.taken + [Incoming(step)]),
          i, c.(queue := x.queue), x.released, [])
    case Send(_, envs) =>
      var d := DeQueue(c.queue, c.ring, envs);
      Put(s, i, Category(d.queue, d.ring), d.released, d.clones)
    case SendControlFrame(_) => Put(s, i, c.(ring := PostControl(c.ring)), [], [])
    case NicStep(_, j) => Put(s, i, c.(ring := if j < |c.ring.cell| then NicReturns(c.ring, j) else c.ring), [], [])
    case DmaDoneStep(_) =>
      var x := Reap(c.ring, |c.ring.cell|);
      Put(s, i, c.(ring := x.ring), x.released, [])
    case CleanUp(_) =>
      Put(s, i, Category([], CleanRing(|c.ring.cell|)), CleanFrom(c.ring.cell, 0) + c.queue, [])
  }

  ghost function HeldBy(w: Packet -> int, c: Category): int {
    Sum(w, c.queue) + CellsSum(w, c.ring.cell)
  }

  ghost function Held(w: Packet -> int, cats: seq<Category>): int {
    if cats == [] then 0 else HeldBy(w, cats[0]) + Held(w, cats[1..])
  }

  lemma {:induction false} HeldUpdate(w: Packet -> int, cats: seq<Category>, i: nat, c: Category)
    requires i < |cats|
    ensures Held(w, cats[i := c]) == Held(w, cats) - HeldBy(w, cats[i]) + HeldBy(w, c)
  {
    if i == 0 {
      assert cats[0 := c][1..] == cats[1..];
    } else {
      assert cats[i := c][1..] == cats[1..][i - 1 := c];
      HeldUpdate(w, cats[1..], i - 1, c);
    }
  }

  ghost predicate RingsOk(s: State) {
    forall i :: 0 <= i < |s.cats| ==> Valid(s.cats[i].ring)
  }

  /** The balance sheet under the weighing `w`. */
  ghost predicate Balanced(w: Packet -> int, s: State) {
    Sum(w, s.taken) + Sum(w, s.clones) == Held(w, s.cats) + Sum(w, s.released)
  }

  /** A category changes, and what it no longer holds was released. */
  lemma PutBalances(w: Packet -> int, s: State, i: nat, c: Category, released: seq<Packet>, clones: seq<Packet>)
    requires i < |s.cats| && Balanced(w, s)
    requires HeldBy(w, c) + Sum(w, released) == HeldBy(w, s.cats[i]) + Sum(w, clones)
    ensures Balanced(w, Put(s, i, c, released, clones))
  {
    HeldUpdate(w, s.cats, i, c);
    SumAppend(w, s.released, released);
    SumAppend(w, s.clones, clones);
  }

  /** What a step releases and clones, read off the history. */
  ghost function NewlyReleased(s: State, s': State): seq<Packet>
    requires |s.released| <= |s'.released|
  {
    s'.released[|s.released|..]
  }

  ghost function NewlyCloned(s: State, s': State): seq<Packet>
    requires |s.clones| <= |s'.clones|
  {
    s'.clones[|s.clones|..]
  }

  /** A step changes only its own category, and accounts for what leaves it. */
  ghost predicate Conserves(w: Packet -> int, s: State, i: nat, s': State) {
    && i < |s.cats| && |s'.clones| >= |s.clones| && |s'.released| >= |s.released|
    && s'.cats == s.cats[i := if i < |s'.cats| then s'.cats[i] else s.cats[i]]
    && Valid(s'.cats[i].ring)
    && s' == Put(s, i, s'.cats[i], NewlyReleased(s, s'), NewlyCloned(s, s'))
    && HeldBy(w, s'.cats[i]) + Sum(w, NewlyReleased(s, s')) == HeldBy(w, s.cats[i]) + Sum(w, NewlyCloned(s, s'))
  }

  lemma PutConserves(w: Packet -> int, s: State, i: nat, c: Category, released: seq<Packet>, clones: seq<Packet>)
    requires i < |s.cats| && Valid(c.ring)
    requires HeldBy(w, c) + Sum(w, released) == HeldBy(w, s.cats[i]) + Sum(w, clones)
    ensures Conserves(w, s, i, Put(s, i, c, released, clones))
    ensures NewlyCloned(s, Put(s, i, c, released, clones)) == clones
  {
    var s' := Put(s, i, c, released, clones);
    assert NewlyReleased(s, s') == released && NewlyCloned(s, s') == clones;
  }

  lemma ControlConserves(w: Packet -> int, r: Ring)
    requires Valid(r)
    ensures Valid(PostControl(r)) && CellsSum(w, PostControl(r).cell) == CellsSum(w, r.cell)
  {
    var len: nat, done: nat :| RingInv(r, len, done);
    FreeNumberIsExact(r, len, done);
    PostControlKeeps(r, len, done);
    if len < |r.cell| {
      assert CellInv(r.cell[At(r, len)], len, len, done);
      PostAdds(w, r, None);
    }
  }

  lemma NicConserves(w: Packet -> int, r: Ring, j: nat)
    requires exists len: nat, done: nat :: OldestAtNic(r, len, done, j)
    ensures j < |r.cell| && Valid(NicReturns(r, j)) && CellsSum(w, NicReturns(r, j).cell) == CellsSum(w, r.cell)
  {
    var len: nat, done: nat :| OldestAtNic(r, len, done, j);
    NicKeeps(r, len, done);
    CellsSumUpdate(w, r.cell, j, r.cell[j].(ownedByNic := false));
  }

  lemma ReapValid(r: Ring)
    requires Valid(r)
    ensures Valid(Reap(r, |r.cell|).ring)
  {
    var len: nat, done: nat :| RingInv(r, len, done);
    ReapIsExact(r, Reap(r, |r.cell|), len, done, |r.cell|, done);
  }

  /** What one step does to its own category. */
  lemma StepConserves(w: Packet -> int, s: State, step: Step)
    requires Enabled(s, step) && RingsOk(s) && !step.Submit?
    ensures Conserves(w, s, step.i, Apply(s, step))
  {
    var i, c := step.i, s.cats[step.i];
    match step {
      case Send(_, envs) =>
        var len: nat, done: nat :| RingInv(c.ring, len, done);
        var d := DeQueue(c.queue, c.ring, envs);
        DeQueueConserves(w, c.queue, c.ring, len, done, envs);
        PutConserves(w, s, i, Category(d.queue, d.ring), d.released, d.clones);
      case SendControlFrame(_) =>
        ControlConserves(w, c.ring);
        PutConserves(w, s, i, c.(ring := PostControl(c.ring)), [], []);
      case NicStep(_, j) =>
        NicConserves(w, c.ring, j);
        PutConserves(w, s, i, c.(ring := NicReturns(c.ring, j)), [], []);
      case DmaDoneStep(_) =>
        var x := Reap(c.ring, |c.ring.cell|);
        ReapValid(c.ring);
        ReapConserves(w, c.ring, |c.ring.cell|);
        PutConserves(w, s, i, c.(ring := x.ring), x.released, []);
      case CleanUp(_) =>
        CleanUpReleasesAll(w, c.ring.cell, 0);
        CleanRingIsEmpty(w, |c.ring.cell|);
        SumAppend(w, CleanFrom(c.ring.cell, 0), c.queue);
        assert c.ring.cell[0..] == c.ring.cell;
        PutConserves(w, s, i, Category([], CleanRing(|c.ring.cell|)), CleanFrom(c.ring.cell, 0) + c.queue, []);
    }
  }

  /** What SendPacket is given to keep: the stamped packet, or the one it throws away. */
  ghost function Incoming(step: Step): Packet
    requires step.Submit? && U32(step.threshold - LENGTH_802_11 - LENGTH_CRC) != 0
  {
    if step.skbNull then step.p else Stamped(step.p, step.threshold, step.rtsThreshold)
  }

  lemma SubmitConserves(w: Packet -> int, s: State, step: Step)
    requires Enabled(s, step) && RingsOk(s) && step.Submit?
    ensures var s' := Apply(s, step); var p := Incoming(step);
      && RingsOk(s') && s'.clones == s.clones && s'.taken == s.taken + [p]
      && Sum(w, s'.taken) == Sum(w, s.taken) + w(p)
      && Held(w, s'.cats) == Held(w, s.cats) + (if step.skbNull then 0 else w(p))
      && Sum(w, s'.released) == Sum(w, s.released) + (if step.skbNull then w(p) else 0)
      && s'.pending == s.pending + Counted(p) - (if step.skbNull then Counted(p) else 0)
  {
    var i, c, p := step.i, s.cats[step.i], Incoming(step);
    var x := SendPacket(c.queue, step.p, step.skbNull, step.threshold, step.rtsThreshold);
    SumOne(w, p);
    SumOne(Counted, p);
    SumAppend(w, s.taken, [p]);
    SumAppend(w, c.queue, [p]);
    HeldUpdate(w, s.cats, i, c.(queue := x.queue));
    SumAppend(w, s.released, x.released);
    assert s.clones + [] == s.clones;
  }

  lemma KeepStep(w: Packet -> int, s: State, step: Step)
    requires Enabled(s, step) && RingsOk(s) && Balanced(w, s)
    ensures RingsOk(Apply(s, step)) && Balanced(w, Apply(s, step))
  {
    if step.Submit? {
      SubmitConserves(w, s, step);
    } else {
      var s' := Apply(s, step);
      StepConserves(w, s, step);
      PutBalances(w, s, step.i, s'.cats[step.i], NewlyReleased(s, s'), NewlyCloned(s, s'));
    }
  }

  // ---- runs ----

  ghost predicate IsRun(s: State, steps: seq<Step>)
    decreases |steps|
  {
    steps != [] ==> Enabled(s, steps[0]) && IsRun(Apply(s, steps[0]), steps[1..])
  }

  ghost function After(s: State, steps: seq<Step>): State
    requires IsRun(s, steps)
    decreases |steps|
  {
    if steps == [] then s else After(Apply(s, steps[0]), steps[1..])
  }

  /** `n` access categories with rings of the given size, nothing in them. */
  ghost function Start(n: nat, size: nat): State {
    State(seq(n, i => Category([], CleanRing(size))), 0, [], [], [])
  }

  lemma {:induction false} EmptyHoldsNothing(w: Packet -> int, cats: seq<Category>, size: nat)
    requires 0 < size && forall i :: 0 <= i < |cats| ==> cats[i] == Category([], CleanRing(size))
    ensures Held(w, cats) == 0
  {
    if cats != [] {
      CleanRingIsEmpty(w, size);
      EmptyHoldsNothing(w, cats[1..], size);
    }
  }

  lemma {:induction false} BalancedOnRuns(w: Packet -> int, s: State, steps: seq<Step>)
    requires RingsOk(s) && Balanced(w, s) && IsRun(s, steps)
    ensures RingsOk(After(s, steps)) && Balanced(w, After(s, steps))
    decreases |steps|
  {
    if steps != [] {
      KeepStep(w, s, steps[0]);
      BalancedOnRuns(w, Apply(s, steps[0]), steps[1..]);
    }
  }

  /** The conservation law: in every reachable state, however packets are weighed, what was handed in
      or cloned equals what is held plus what was released. */
  lemma NothingLostNothingTwice(w: Packet -> int, n: nat, size: nat, steps: seq<Step>)
    requires 0 < size && IsRun(Start(n, size), steps)
    ensures Balanced(w, After(Start(n, size), steps))
  {
    EmptyHoldsNothing(w, Start(n, size).cats, size);
    CleanRingIsEmpty(w, size);
    BalancedOnRuns(w, Start(n, size), steps);
  }

  /** How often a packet occurs. */
  function Only(p: Packet): Packet -> int {
    (q: Packet) => if q == p then 1 else 0
  }

  lemma {:induction false} OccursNonNegative(p: Packet, ps: seq<Packet>)
    ensures Sum(Only(p), ps) >= 0
  {
    if ps != [] {
      OccursNonNegative(p, ps[1..]);
    }
  }

  lemma {:induction false} HeldNonNegative(p: Packet, cats: seq<Category>)
    ensures Held(Only(p), cats) >= 0
  {
    if cats != [] {
      OccursNonNegative(p, cats[0].queue);
      CellsNonNegative(p, cats[0].ring.cell);
      HeldNonNegative(p, cats[1..]);
    }
  }

  lemma {:induction false} CellsNonNegative(p: Packet, cells: seq<Cell>)
    ensures CellsSum(Only(p), cells) >= 0
  {
    if cells != [] {
      OccursNonNegative(p, CellPackets(cells[0]));
      CellsNonNegative(p, cells[1..]);
    }
  }

  /** A packet that came in once is at any time in exactly one place: held once and not released, or
      released once and held nowhere. */
  lemma HeldOrReleasedOnce(p: Packet, n: nat, size: nat, steps: seq<Step>)
    requires 0 < size && IsRun(Start(n, size), steps)
    requires var s := After(Start(n, size), steps); Sum(Only(p), s.taken) + Sum(Only(p), s.clones) == 1
    ensures var s := After(Start(n, size), steps);
      || (Held(Only(p), s.cats) == 1 && Sum(Only(p), s.released) == 0)
      || (Held(Only(p), s.cats) == 0 && Sum(Only(p), s.released) == 1)
  {
    var s := After(Start(n, size), steps);
    NothingLostNothingTwice(Only(p), n, size, steps);
    HeldNonNegative(p, s.cats);
    OccursNonNegative(p, s.released);
  }

  // ---- the counter ----

  ghost predicate CountsRight(s: State) {
    s.pending == Held(Counted, s.cats)
  }

  lemma {:induction false} ClonesNotCounted(q: seq<Packet>, r: Ring, envs: seq<Env>)
    requires Bounds(r)
    ensures CountedIn(DeQueue(q, r, envs).clones) == 0
    decreases |envs|
  {
    if envs != [] && q != [] && FreeNumber(r) >= MpduRequired(q[0]) {
      var x := HardTransmit(r, q[0], envs[0]);
      SumOne(Counted, Carrier(q[0], envs[0]));
      if x.status.Success? && Bounds(x.ring) {
        ClonesNotCounted(q[1..], x.ring, envs[1..]);
        SumAppend(Counted, Made(q[0], envs[0]), DeQueue(q[1..], x.ring, envs[1..]).clones);
      }
    }
  }

  lemma CountStep(s: State, step: Step)
    requires Enabled(s, step) && RingsOk(s) && CountsRight(s)
    ensures RingsOk(Apply(s, step)) && CountsRight(Apply(s, step))
  {
    if step.Submit? {
      SubmitConserves(Counted, s, step);
    } else {
      var s' := Apply(s, step);
      StepConserves(Counted, s, step);
      HeldUpdate(Counted, s.cats, step.i, s'.cats[step.i]);
      StepClonesNotCounted(s, step);
    }
  }

  lemma StepClonesNotCounted(s: State, step: Step)
    requires Enabled(s, step) && !step.Submit?
    ensures |s.clones| <= |Apply(s, step).clones|
    ensures CountedIn(NewlyCloned(s, Apply(s, step))) == 0
  {
    if step.Send? {
      var c := s.cats[step.i];
      ClonesNotCounted(c.queue, c.ring, step.envs);
      assert NewlyCloned(s, Apply(s, step)) == DeQueue(c.queue, c.ring, step.envs).clones;
    }
  }

  lemma {:induction false} CountOnRuns(s: State, steps: seq<Step>)
    requires RingsOk(s) && CountsRight(s) && IsRun(s, steps)
    ensures CountsRight(After(s, steps))
    decreases |steps|
  {
    if steps != [] {
      CountStep(s, steps[0]);
      CountOnRuns(Apply(s, steps[0]), steps[1..]);
    }
  }

  /** PendingNdisPacketCount always equals the number of protocol-layer packets in the software queues
      and on the rings. */
  lemma PendingCountIsExact(n: nat, size: nat, steps: seq<Step>)
    requires 0 < size && IsRun(Start(n, size), steps)
    ensures CountsRight(After(Start(n, size), steps))
  {
    EmptyHoldsNothing(Counted, Start(n, size).cats, size);
    CleanRingIsEmpty(Counted, size);
    CountOnRuns(Start(n, size), steps);
  }
}
