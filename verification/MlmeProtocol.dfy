/** The MLME queue under concurrency: any number of threads, each between any two of its memory
    operations, sequentially consistent. A thread is a producer (MlmeEnqueue), the handler
    (MlmeHandler), or the handler in the middle of an action that itself enqueues. */
module MlmeProtocol {
  import opened Modular
  import opened MlmeQueue

  /** Where a thread stands. `ticket` numbers the reservation and is not read by the code. */
  datatype Thread =
    | Idle
    | Filling(slot: nat, msg: Msg, k: nat, inAction: bool, wakes: bool, ticket: nat)
    | Published     // Occupied stored, MlmeHandler not yet entered
    | Testing       // holds the lock, at the loop condition
    | Leaving       // holds the lock, saw an empty queue or a bubble
    | Dispatching   // lock released, the state machine's action runs
    | Cleared       // Occupied taken back, about to lock and dequeue

  /** `wakes`: the producer calls MlmeHandler when it has published, as most do, or is inside it. */
  datatype Reservation = Reservation(msg: Msg, producer: nat, wakes: bool)

  /** `lock`, `q` and `threads` are what the program has. The rest is history: the reservations in
      order, the messages read at the start of each dispatch, and which thread runs the loop. */
  datatype State = State(
    q: Queue, lock: bool, threads: seq<Thread>,
    reserved: seq<Reservation>, started: seq<Msg>, runner: int)

  const NOBODY: int := -1

  datatype Step =
    | DoReserve(t: nat, msg: Msg, calls: bool)
    | DoStore(t: nat)
    | DoPublish(t: nat)
    | DoEnter(t: nat)
    | DoTest(t: nat)
    | DoClear(t: nat)
    | DoDequeue(t: nat)
    | DoLeave(t: nat)

  ghost predicate Shape(s: State) {
    && 0 < |s.q.entry| && s.q.head < |s.q.entry| && s.q.tail < |s.q.entry| && s.q.num <= |s.q.entry|
    && s.q.num <= |s.reserved|
    && (forall j :: 0 <= j < |s.q.entry| ==> |s.q.entry[j].buf| == MAX_LEN_OF_MLME_BUFFER)
  }

  /** The number of messages already taken off the queue, which is the ticket of the head. */
  ghost function Taken(s: State): nat
    requires s.q.num <= |s.reserved|
  {
    |s.reserved| - s.q.num
  }

  ghost predicate Enabled(s: State, step: Step)
    requires Shape(s)
  {
    && step.t < |s.threads|
    && var th := s.threads[step.t];
       match step
       case DoReserve(_, _, _) => !s.lock && (th.Idle? || th.Dispatching?)
       case DoStore(_) => th.Filling? && FitsBuffer(th.msg) && th.slot < |s.q.entry| && th.k < Stores(th.msg)
       case DoPublish(_) => th.Filling? && th.slot < |s.q.entry| && th.k == Stores(th.msg)
       case DoEnter(_) => !s.lock && (th.Idle? || th.Published?)
       case DoTest(_) => th.Testing?
       case DoClear(_) => th.Dispatching?
       case DoDequeue(_) => !s.lock && th.Cleared?
       case DoLeave(_) => th.Leaving?
  }

  ghost function SetThread(s: State, t: nat, th: Thread): State
    requires t < |s.threads|
  {
    s.(threads := s.threads[t := th])
  }

  ghost function Apply(s: State, step: Step): State
    requires Shape(s) && Enabled(s, step)
  {
    var t := step.t;
    var th := s.threads[t];
    match step
    case DoReserve(_, m, calls) =>
      // a message that does not fit, or a full queue: MlmeEnqueue returns FALSE
      if !FitsBuffer(m) || s.q.num == |s.q.entry| then s
      else
        var wakes := calls || th.Dispatching?;
        SetThread(s, t, Filling(s.q.tail, m, 0, th.Dispatching?, wakes, |s.reserved|))
        .(q := Reserve(s.q), reserved := s.reserved + [Reservation(m, t, wakes)])
    case DoStore(_) =>
      SetThread(s, t, th.(k := th.k + 1)).(q := SetElem(s.q, th.slot, StoreAt(s.q.entry[th.slot], th.msg, th.k)))
    case DoPublish(_) =>
      SetThread(s, t, if th.inAction then Dispatching else if th.wakes then Published else Idle)
      .(q := SetOccupied(s.q, th.slot, true))
    case DoEnter(_) =>
      if s.q.running then SetThread(s, t, Idle)
      else SetThread(s, t, Testing).(q := s.q.(running := true), lock := true, runner := t)
    case DoTest(_) =>
      if HeadReady(s.q) then
        var e := s.q.entry[s.q.head];
        SetThread(s, t, Dispatching).(lock := false,
          started := s.started + [if e.msgLen <= |e.buf| then Content(e) else Msg(0, 0, [])])
      else SetThread(s, t, Leaving)
    case DoClear(_) =>
      SetThread(s, t, Cleared).(q := SetOccupied(s.q, s.q.head, false))
    case DoDequeue(_) =>
      SetThread(s, t, Testing).(q := Dequeue(s.q), lock := true)
    case DoLeave(_) =>
      SetThread(s, t, Idle).(q := s.q.(running := false), lock := false, runner := NOBODY)
  }

  // ---- the invariant ----

  predicate InLoop(th: Thread) {
    th.Testing? || th.Leaving? || th.Dispatching? || th.Cleared? || (th.Filling? && th.inAction)
  }

  predicate InAction(th: Thread) {
    th.Dispatching? || (th.Filling? && th.inAction)
  }

  /** Between taking a message and giving its slot back. */
  predicate MidMessage(th: Thread) {
    InAction(th) || th.Cleared?
  }

  ghost predicate Runs(s: State, t: int) {
    s.runner == t && 0 <= t < |s.threads|
  }

  ghost predicate RingInv(s: State) {
    && Shape(s)
    && s.q.head == Taken(s) % |s.q.entry|
    && s.q.tail == |s.reserved| % |s.q.entry|
    && (forall i :: 0 <= i < |s.reserved| ==> FitsBuffer(s.reserved[i].msg))
  }

  ghost predicate LockInv(s: State) {
    && (s.q.running <==> s.runner != NOBODY)
    && (s.runner != NOBODY ==> 0 <= s.runner < |s.threads|)
    && (forall t :: 0 <= t < |s.threads| ==> (InLoop(s.threads[t]) <==> s.runner == t))
    && (s.lock <==> s.runner != NOBODY && (s.threads[s.runner].Testing? || s.threads[s.runner].Leaving?))
  }

  /** A live ticket's slot. */
  ghost function Slot(s: State, i: nat): Elem
    requires Shape(s)
  {
    s.q.entry[i % |s.q.entry|]
  }

  ghost predicate FillInv(s: State)
    requires Shape(s)
  {
    forall t :: 0 <= t < |s.threads| && s.threads[t].Filling? ==>
      FillerOk(s, t, s.threads[t])
  }

  ghost predicate FillerOk(s: State, t: nat, th: Thread)
    requires Shape(s) && th.Filling?
  {
    && Taken(s) <= th.ticket < |s.reserved|
    && th.slot == th.ticket % |s.q.entry|
    && s.reserved[th.ticket] == Reservation(th.msg, t, th.wakes)
    && (th.inAction ==> th.wakes)
    && !s.q.entry[th.slot].occupied
    && Written(s.q.entry[th.slot], th.msg, th.k)
  }

  /** Every live ticket is being filled by its producer, or is published whole, or is the message
      just handled. */
  ghost predicate LiveInv(s: State)
    requires Shape(s)
  {
    forall i :: Taken(s) <= i < |s.reserved| ==> LiveOk(s, i)
  }

  ghost predicate LiveOk(s: State, i: nat)
    requires Shape(s) && i < |s.reserved|
  {
    var e := Slot(s, i);
    var p := s.reserved[i].producer;
    if e.occupied then Holds(e, s.reserved[i].msg)
    else (i == Taken(s) && s.runner != NOBODY && Runs(s, s.runner) && s.threads[s.runner].Cleared?)
         || (p < |s.threads| && s.threads[p].Filling? && s.threads[p].ticket == i)
  }

  /** A slot nobody has reserved is not Occupied. */
  ghost predicate FreeInv(s: State)
    requires Shape(s)
  {
    forall j :: 0 <= j < |s.q.entry| && s.q.entry[j].occupied ==>
      exists i :: Taken(s) <= i < |s.reserved| && i % |s.q.entry| == j
  }

  ghost predicate HistoryInv(s: State)
    requires Shape(s)
  {
    && |s.started| == Taken(s) + (if Runs(s, s.runner) && MidMessage(s.threads[s.runner]) then 1 else 0)
    && |s.started| <= |s.reserved|
    && (forall i :: 0 <= i < |s.started| ==> s.started[i] == s.reserved[i].msg)
    && (Runs(s, s.runner) && InAction(s.threads[s.runner]) ==> s.q.num > 0 && s.q.entry[s.q.head].occupied)
    && (Runs(s, s.runner) && s.threads[s.runner].Cleared? ==>
          && s.q.num > 0 && !s.q.entry[s.q.head].occupied
          && forall u :: 0 <= u < |s.threads| && s.threads[u].Filling? ==> s.threads[u].ticket != Taken(s))
  }

  /** A published head that nobody is going to look at still has its own producer on the way, unless
      that producer calls no handler. */
  ghost predicate WakeInv(s: State)
    requires Shape(s)
  {
    HeadReady(s.q) && (s.runner == NOBODY || (Runs(s, s.runner) && s.threads[s.runner].Leaving?)) ==>
      var r := s.reserved[Taken(s)];
      r.wakes ==> r.producer < |s.threads| && s.threads[r.producer].Published?
  }

  ghost predicate Inv(s: State) {
    RingInv(s) && LockInv(s) && FillInv(s) && LiveInv(s) && FreeInv(s) && HistoryInv(s) && WakeInv(s)
  }

  // ---- every step keeps it ----

  lemma SameSlot(s: State, i: nat, j: nat)
    requires RingInv(s)
    requires Taken(s) <= i < |s.reserved| && Taken(s) <= j < |s.reserved|
    requires i % |s.q.entry| == j % |s.q.entry|
    ensures i == j
  {
    if i <= j {
      WrapInjective(i, j, |s.q.entry|);
    } else {
      WrapInjective(j, i, |s.q.entry|);
    }
  }

  /** The slot at Tail belongs to no live ticket while the queue is not full. */
  lemma TailIsFree(s: State, i: nat)
    requires RingInv(s) && s.q.num < |s.q.entry|
    requires Taken(s) <= i < |s.reserved|
    ensures i % |s.q.entry| != s.q.tail
  {
    if i % |s.q.entry| == s.q.tail {
      WrapInjective(i, |s.reserved|, |s.q.entry|);
    }
  }

  /** The slot reserved is free, and what is said about slots goes on holding. */
  lemma SlotsReserve(s: State, t: nat, m: Msg, calls: bool)
    requires Inv(s) && Enabled(s, DoReserve(t, m, calls))
    ensures var s' := Apply(s, DoReserve(t, m, calls)); FillInv(s') && LiveInv(s')
  {
    var s' := Apply(s, DoReserve(t, m, calls));
    if s' != s {
      assert !s.q.entry[s.q.tail].occupied by {
        if s.q.entry[s.q.tail].occupied {
          var i :| Taken(s) <= i < |s.reserved| && i % |s.q.entry| == s.q.tail;
          TailIsFree(s, i);
        }
      }
      forall i | Taken(s') <= i < |s'.reserved| ensures LiveOk(s', i) {
        if i < |s.reserved| {
          assert LiveOk(s, i);
        }
      }
      forall u | 0 <= u < |s'.threads| && s'.threads[u].Filling?
        ensures FillerOk(s', u, s'.threads[u])
      {
        if u != t {
          assert FillerOk(s, u, s.threads[u]);
        }
      }
    }
  }

  lemma KeepReserve(s: State, t: nat, m: Msg, calls: bool)
    requires Inv(s) && Enabled(s, DoReserve(t, m, calls))
    ensures Inv(Apply(s, DoReserve(t, m, calls)))
  {
    var s' := Apply(s, DoReserve(t, m, calls));
    if s' != s {
      WrapStep(|s.reserved|, |s.q.entry|);
      SlotsReserve(s, t, m, calls);
      forall j | 0 <= j < |s'.q.entry| && s'.q.entry[j].occupied
        ensures exists i :: Taken(s') <= i < |s'.reserved| && i % |s'.q.entry| == j
      {
        var i :| Taken(s) <= i < |s.reserved| && i % |s.q.entry| == j;
        assert i < |s'.reserved|;
      }
    }
  }

  /** Slots that become Occupied, if any, belong to the live ticket i. */
  lemma KeepFree(s: State, s': State, i: nat)
    requires Shape(s) && Shape(s') && FreeInv(s)
    requires |s'.q.entry| == |s.q.entry| && |s'.reserved| == |s.reserved| && s'.q.num == s.q.num
    requires Taken(s) <= i < |s.reserved|
    requires forall j :: 0 <= j < |s.q.entry| && s'.q.entry[j].occupied ==> s.q.entry[j].occupied || j == i % |s.q.entry|
    ensures FreeInv(s')
  {
    forall j | 0 <= j < |s'.q.entry| && s'.q.entry[j].occupied
      ensures exists k :: Taken(s') <= k < |s'.reserved| && k % |s'.q.entry| == j
    {
      if j != i % |s.q.entry| {
        assert s.q.entry[j].occupied;
      }
    }
  }

  lemma KeepStore(s: State, t: nat)
    requires Inv(s) && Enabled(s, DoStore(t))
    ensures Inv(Apply(s, DoStore(t)))
  {
    SlotsStore(s, t);
    assert FillerOk(s, t, s.threads[t]);
  }

  lemma SlotsStore(s: State, t: nat)
    requires Inv(s) && Enabled(s, DoStore(t))
    ensures FillInv(Apply(s, DoStore(t))) && LiveInv(Apply(s, DoStore(t))) && FreeInv(Apply(s, DoStore(t)))
  {
    var s' := Apply(s, DoStore(t));
    var th := s.threads[t];
    assert FillerOk(s, t, th);
    var e, e' := s.q.entry[th.slot], s'.q.entry[th.slot];
    assert Written(e', th.msg, th.k + 1);
    FillersApart(s, t);
    forall i | Taken(s') <= i < |s'.reserved| ensures LiveOk(s', i) {
      assert LiveOk(s, i);
      if i != th.ticket && i % |s.q.entry| == th.slot {
        SameSlot(s, i, th.ticket);
      }
    }
    forall u | 0 <= u < |s'.threads| && s'.threads[u].Filling?
      ensures FillerOk(s', u, s'.threads[u])
    {
      assert FillerOk(s, u, s.threads[u]);
    }
    KeepFree(s, s', th.ticket);
  }

  /** No other thread fills the slot that t fills. */
  lemma FillersApart(s: State, t: nat)
    requires RingInv(s) && FillInv(s) && t < |s.threads| && s.threads[t].Filling?
    ensures forall u :: 0 <= u < |s.threads| && u != t && s.threads[u].Filling? ==>
      s.threads[u].slot != s.threads[t].slot && s.threads[u].ticket != s.threads[t].ticket
  {
    forall u | 0 <= u < |s.threads| && u != t && s.threads[u].Filling?
      ensures s.threads[u].slot != s.threads[t].slot && s.threads[u].ticket != s.threads[t].ticket
    {
      assert FillerOk(s, t, s.threads[t]) && FillerOk(s, u, s.threads[u]);
      if s.threads[u].slot == s.threads[t].slot {
        SameSlot(s, s.threads[u].ticket, s.threads[t].ticket);
      }
    }
  }

  lemma KeepPublish(s: State, t: nat)
    requires Inv(s) && Enabled(s, DoPublish(t))
    ensures Inv(Apply(s, DoPublish(t)))
  {
    SlotsPublish(s, t);
    assert FillerOk(s, t, s.threads[t]);
    if s.q.num > 0 && s.q.head == s.threads[t].slot {
      SameSlot(s, Taken(s), s.threads[t].ticket);
    }
  }

  lemma SlotsPublish(s: State, t: nat)
    requires Inv(s) && Enabled(s, DoPublish(t))
    ensures FillInv(Apply(s, DoPublish(t))) && LiveInv(Apply(s, DoPublish(t))) && FreeInv(Apply(s, DoPublish(t)))
  {
    var s' := Apply(s, DoPublish(t));
    var th := s.threads[t];
    assert FillerOk(s, t, th);
    FillersApart(s, t);
    FullyWritten(s.q.entry[th.slot], th.msg);
    assert Holds(s'.q.entry[th.slot], th.msg);
    forall i | Taken(s') <= i < |s'.reserved| ensures LiveOk(s', i) {
      assert LiveOk(s, i);
      if i != th.ticket && i % |s.q.entry| == th.slot {
        SameSlot(s, i, th.ticket);
      }
    }
    forall u | 0 <= u < |s'.threads| && s'.threads[u].Filling?
      ensures FillerOk(s', u, s'.threads[u])
    {
      assert FillerOk(s, u, s.threads[u]);
    }
    KeepFree(s, s', th.ticket);
  }

  /** Steps that touch no slot keep what is said about slots. */
  lemma SameSlots(s: State, s': State, t: nat)
    requires Inv(s) && Shape(s') && t < |s.threads|
    requires s'.q.entry == s.q.entry && s'.reserved == s.reserved && s'.q.num == s.q.num
    requires |s'.threads| == |s.threads|
    requires forall u :: 0 <= u < |s.threads| && u != t ==> s'.threads[u] == s.threads[u]
    requires !s.threads[t].Filling? && !s'.threads[t].Filling?
    requires !s.threads[t].Cleared?
    requires s.runner == s'.runner || s.runner == NOBODY || s.runner == t
    ensures FillInv(s') && LiveInv(s') && FreeInv(s')
  {
    forall u | 0 <= u < |s'.threads| && s'.threads[u].Filling?
      ensures FillerOk(s', u, s'.threads[u])
    {
      assert FillerOk(s, u, s.threads[u]);
    }
    forall i | Taken(s') <= i < |s'.reserved| ensures LiveOk(s', i) {
      assert LiveOk(s, i);
    }
    forall j | 0 <= j < |s'.q.entry| && s'.q.entry[j].occupied
      ensures exists i :: Taken(s') <= i < |s'.reserved| && i % |s'.q.entry| == j
    {
      var i :| Taken(s) <= i < |s.reserved| && i % |s.q.entry| == j;
      assert i < |s'.reserved|;
    }
  }

  lemma KeepEnter(s: State, t: nat)
    requires Inv(s) && Enabled(s, DoEnter(t))
    ensures Inv(Apply(s, DoEnter(t)))
  {
    SameSlots(s, Apply(s, DoEnter(t)), t);
  }

  lemma KeepTest(s: State, t: nat)
    requires Inv(s) && Enabled(s, DoTest(t))
    ensures Inv(Apply(s, DoTest(t)))
  {
    var s' := Apply(s, DoTest(t));
    SameSlots(s, s', t);
    if HeadReady(s.q) {
      assert LiveOk(s, Taken(s));
    }
  }

  lemma KeepLeave(s: State, t: nat)
    requires Inv(s) && Enabled(s, DoLeave(t))
    ensures Inv(Apply(s, DoLeave(t)))
  {
    SameSlots(s, Apply(s, DoLeave(t)), t);
  }

  lemma KeepClear(s: State, t: nat)
    requires Inv(s) && Enabled(s, DoClear(t))
    ensures Inv(Apply(s, DoClear(t)))
  {
    var s' := Apply(s, DoClear(t));
    forall u | 0 <= u < |s'.threads| && s'.threads[u].Filling?
      ensures FillerOk(s', u, s'.threads[u])
    {
      assert FillerOk(s, u, s.threads[u]);
    }
    forall i | Taken(s') <= i < |s'.reserved| ensures LiveOk(s', i) {
      assert LiveOk(s, i);
      if i != Taken(s) && i % |s.q.entry| == s.q.head {
        SameSlot(s, i, Taken(s));
      }
    }
    KeepFree(s, s', Taken(s));
  }

  lemma KeepDequeue(s: State, t: nat)
    requires Inv(s) && Enabled(s, DoDequeue(t))
    ensures Inv(Apply(s, DoDequeue(t)))
  {
    var s' := Apply(s, DoDequeue(t));
    WrapStep(Taken(s), |s.q.entry|);
    assert Taken(s') == Taken(s) + 1;
    forall u | 0 <= u < |s'.threads| && s'.threads[u].Filling?
      ensures FillerOk(s', u, s'.threads[u])
    {
      assert FillerOk(s, u, s.threads[u]);
    }
    forall i | Taken(s') <= i < |s'.reserved| ensures LiveOk(s', i) {
      assert LiveOk(s, i);
    }
    forall j | 0 <= j < |s'.q.entry| && s'.q.entry[j].occupied
      ensures exists i :: Taken(s') <= i < |s'.reserved| && i % |s'.q.entry| == j
    {
      var i :| Taken(s) <= i < |s.reserved| && i % |s.q.entry| == j;
      assert i != Taken(s);
    }
  }

  lemma KeepStep(s: State, step: Step)
    requires Inv(s) && Enabled(s, step)
    ensures Inv(Apply(s, step))
  {
    match step
    case DoReserve(t, m, calls) => KeepReserve(s, t, m, calls);
    case DoStore(t) => KeepStore(s, t);
    case DoPublish(t) => KeepPublish(s, t);
    case DoEnter(t) => KeepEnter(s, t);
    case DoTest(t) => KeepTest(s, t);
    case DoClear(t) => KeepClear(s, t);
    case DoDequeue(t) => KeepDequeue(s, t);
    case DoLeave(t) => KeepLeave(s, t);
  }

  // ---- runs ----

  /** After MlmeQueueInit, with n threads that have not started anything. */
  ghost function Start(capacity: nat, n: nat): State {
    State(Queue(0, 0, 0, seq(capacity, i => Elem(0, 0, 0, false, seq(MAX_LEN_OF_MLME_BUFFER, j => 0))), false),
          false, seq(n, i => Idle), [], [], NOBODY)
  }

  ghost predicate IsRun(s: State, steps: seq<Step>)
    decreases |steps|
  {
    && Shape(s)
    && (steps != [] ==> Enabled(s, steps[0]) && IsRun(Apply(s, steps[0]), steps[1..]))
  }

  ghost function After(s: State, steps: seq<Step>): State
    requires IsRun(s, steps)
    decreases |steps|
  {
    if steps == [] then s else After(Apply(s, steps[0]), steps[1..])
  }

  lemma {:induction false} InvOnRuns(s: State, steps: seq<Step>)
    requires Inv(s) && IsRun(s, steps)
    ensures Inv(After(s, steps))
    decreases |steps|
  {
    if steps != [] {
      KeepStep(s, steps[0]);
      InvOnRuns(Apply(s, steps[0]), steps[1..]);
    }
  }

  ghost predicate Reachable(s: State) {
    exists capacity: nat, n: nat, steps: seq<Step> ::
      0 < capacity && IsRun(Start(capacity, n), steps) && After(Start(capacity, n), steps) == s
  }

  lemma ReachableInv(s: State)
    requires Reachable(s)
    ensures Inv(s)
  {
    var capacity: nat, n: nat, steps: seq<Step> :|
      0 < capacity && IsRun(Start(capacity, n), steps) && After(Start(capacity, n), steps) == s;
    assert Inv(Start(capacity, n));
    InvOnRuns(Start(capacity, n), steps);
  }

  // ---- what the queue promises ----

  /** A producer gets a slot exactly when its message fits the buffer and the ring is not full, and the
      slot is the one behind those in use. */
  lemma ReservesExactlyWhen(s: State, t: nat, m: Msg, calls: bool)
    requires Reachable(s) && Shape(s) && Enabled(s, DoReserve(t, m, calls))
    ensures var n := Apply(s, DoReserve(t, m, calls));
      if |m.body| <= 2048 && s.q.num < |s.q.entry| then
        && n.reserved == s.reserved + [Reservation(m, t, calls || s.threads[t].Dispatching?)]
        && n.threads[t].Filling? && n.threads[t].slot == CellAt(s.q, s.q.num)
      else n == s
  {
    WindowOfSlots(s);
  }

  /** The k-th message ever dispatched is the k-th message ever reserved, exactly as its producer
      passed it: dispatch happens in reservation order, never twice, and never on a torn slot. */
  lemma DispatchInReservationOrder(s: State)
    requires Reachable(s)
    ensures |s.started| <= |s.reserved|
    ensures forall i :: 0 <= i < |s.started| ==> s.started[i] == s.reserved[i].msg
  {
    ReachableInv(s);
  }

  /** As long as an action runs, whatever the other threads do meanwhile, the element it reads is
      still the message it was called for. */
  lemma StableDuringAction(s: State, t: nat)
    requires Reachable(s) && t < |s.threads| && InAction(s.threads[t])
    ensures s.q.num > 0 && s.q.head < |s.q.entry| && s.started != []
    ensures s.q.entry[s.q.head].occupied
    ensures Holds(s.q.entry[s.q.head], s.started[|s.started| - 1])
  {
    ReachableInv(s);
    assert LiveOk(s, Taken(s));
  }

  /** At most one thread is in the loop, and only it can hold the lock across steps. */
  lemma OneHandler(s: State, t: nat, u: nat)
    requires Reachable(s) && t < |s.threads| && u < |s.threads|
    requires InLoop(s.threads[t]) && InLoop(s.threads[u])
    ensures t == u && s.q.running
  {
    ReachableInv(s);
  }

  /** The d-th cell of the window that starts at Head. */
  ghost function CellAt(q: Queue, d: nat): nat
    requires 0 < |q.entry|
  {
    (q.head + d) % |q.entry|
  }

  /** Head, Tail and Num describe one window of the ring, and outside it nothing is Occupied. */
  lemma WindowOfSlots(s: State)
    requires Reachable(s)
    ensures 0 < |s.q.entry| && s.q.num <= |s.q.entry| && s.q.tail == CellAt(s.q, s.q.num)
    ensures forall j :: 0 <= j < |s.q.entry| && s.q.entry[j].occupied ==>
      exists d: nat :: d < s.q.num && CellAt(s.q, d) == j
  {
    ReachableInv(s);
    WrapAdd(Taken(s), s.q.num, |s.q.entry|);
    forall j | 0 <= j < |s.q.entry| && s.q.entry[j].occupied
      ensures exists d: nat :: d < s.q.num && CellAt(s.q, d) == j
    {
      var i :| Taken(s) <= i < |s.reserved| && i % |s.q.entry| == j;
      WrapAdd(Taken(s), i - Taken(s), |s.q.entry|);
      assert CellAt(s.q, i - Taken(s)) == j;
    }
  }

  /** Whenever the handler has gone home and the head is published, the very thread that published
      it has yet to enter MlmeHandler, or is one that does not. */
  lemma NoLostWakeup(s: State)
    requires Reachable(s) && !s.lock && !s.q.running && s.q.head < |s.q.entry| && HeadReady(s.q)
    ensures s.q.num <= |s.reserved| && Taken(s) < |s.reserved|
    ensures var r := s.reserved[Taken(s)];
      r.wakes ==> r.producer < |s.threads| && s.threads[r.producer].Published?
  {
    ReachableInv(s);
  }

  ghost predicate Quiescent(s: State) {
    forall t :: 0 <= t < |s.threads| ==> s.threads[t].Idle?
  }

  /** When nobody is doing anything, messages wait only behind one whose producer called no handler;
      if all producers call it, the queue is empty and every message accepted was dispatched. */
  lemma QuiescentIsEmpty(s: State)
    requires Reachable(s) && Quiescent(s)
    ensures !s.q.running && !s.lock && s.q.num <= |s.reserved| && |s.started| == Taken(s)
    ensures forall i :: 0 <= i < |s.started| ==> s.started[i] == s.reserved[i].msg
    ensures s.q.num > 0 ==> !s.reserved[Taken(s)].wakes
    ensures (forall i :: 0 <= i < |s.reserved| ==> s.reserved[i].wakes) ==> s.q.num == 0 && |s.started| == |s.reserved|
  {
    ReachableInv(s);
    QuiescentInv(s);
  }

  lemma QuiescentInv(s: State)
    requires Inv(s) && Quiescent(s)
    ensures !s.q.running && !s.lock && s.runner == NOBODY && |s.started| == Taken(s)
    ensures s.q.num > 0 ==> !s.reserved[Taken(s)].wakes
  {
    assert s.runner != NOBODY ==> InLoop(s.threads[s.runner]);
    assert s.q.num > 0 ==> LiveOk(s, Taken(s));
  }

  /** A dispatched action that enqueues more and then calls MlmeHandler finds Running set, so the
      call returns at once and the dispatch is not entered twice. */
  lemma ActionFindsRunning(s: State, t: nat)
    requires Reachable(s) && t < |s.threads| && InAction(s.threads[t])
    ensures s.q.running && !s.lock
  {
    ReachableInv(s);
  }

  // ---- everything accepted is eventually dispatched ----

  /** Steps that finish what was begun: no new enqueue, no stray handler call. */
  predicate Finishing(s: State, step: Step) {
    !step.DoReserve? && step.t < |s.threads| && !s.threads[step.t].Idle?
  }

  ghost function Weight(th: Thread): nat {
    match th
    case Idle => 0
    case Leaving => 1
    case Testing => 2
    case Published => 3
    case Cleared => 3
    case Dispatching => 4
    case Filling(_, m, k, _, _, _) => 5 + (if k <= Stores(m) then Stores(m) - k else 0)
  }

  ghost function TotalWeight(ths: seq<Thread>): nat {
    if ths == [] then 0 else Weight(ths[0]) + TotalWeight(ths[1..])
  }

  lemma {:induction false} ReplaceWeight(ths: seq<Thread>, t: nat, th: Thread)
    requires t < |ths|
    ensures TotalWeight(ths[t := th]) == TotalWeight(ths) - Weight(ths[t]) + Weight(th)
  {
    if t == 0 {
      assert ths[0 := th][1..] == ths[1..];
    } else {
      assert ths[t := th][1..] == ths[1..][t - 1 := th];
      ReplaceWeight(ths[1..], t - 1, th);
    }
  }

  /** Each message still to be dispatched costs the handler one turn of its loop. */
  ghost function Work(s: State): int {
    5 * (|s.reserved| - |s.started|) + TotalWeight(s.threads)
  }

  lemma WorkShrinks(s: State, step: Step)
    requires Inv(s) && Enabled(s, step) && Finishing(s, step)
    ensures Work(Apply(s, step)) < Work(s)
  {
    ReplaceWeight(s.threads, step.t, Apply(s, step).threads[step.t]);
  }

  ghost predicate FinishingRun(s: State, steps: seq<Step>)
    decreases |steps|
  {
    && IsRun(s, steps)
    && (steps != [] ==> Finishing(s, steps[0]) && FinishingRun(Apply(s, steps[0]), steps[1..]))
  }

  /** However the scheduler picks, finishing takes at most Work(s) steps. */
  lemma {:induction false} FinishingIsBounded(s: State, steps: seq<Step>)
    requires Inv(s) && FinishingRun(s, steps)
    ensures |steps| <= Work(s)
    decreases |steps|
  {
    if steps != [] {
      KeepStep(s, steps[0]);
      WorkShrinks(s, steps[0]);
      FinishingIsBounded(Apply(s, steps[0]), steps[1..]);
    }
  }

  /** No deadlock: unless all threads are idle, some busy thread can move. */
  lemma SomebodyCanMove(s: State)
    requires Inv(s)
    ensures Quiescent(s) || exists step :: Finishing(s, step) && Enabled(s, step)
  {
    if !Quiescent(s) {
      var t: nat :| t < |s.threads| && !s.threads[t].Idle?;
      var step := MoveOf(s, if s.lock then s.runner else t);
      if s.threads[step.t].Filling? {
        assert FillerOk(s, step.t, s.threads[step.t]);
      }
      assert Finishing(s, step) && Enabled(s, step);
    }
  }

  /** The next step of a busy thread. */
  function MoveOf(s: State, t: nat): Step
    requires t < |s.threads|
  {
    match s.threads[t]
    case Filling(_, m, k, _, _, _) => if k < Stores(m) then DoStore(t) else DoPublish(t)
    case Idle => DoEnter(t)
    case Published => DoEnter(t)
    case Dispatching => DoClear(t)
    case Cleared => DoDequeue(t)
    case Testing => DoTest(t)
    case Leaving => DoLeave(t)
  }

  /** Nothing that was begun is left to finish. */
  ghost predicate Finished(e: State)
    requires Shape(e)
  {
    !exists step :: Finishing(e, step) && Enabled(e, step)
  }

  /** The two together: a finishing run that cannot be extended is at most Work(s) steps long. It ends
      with every accepted message dispatched, but for those behind one whose producer called no handler. */
  lemma EverythingGetsDispatched(s: State, steps: seq<Step>)
    requires Reachable(s) && FinishingRun(s, steps)
    requires Shape(After(s, steps)) && Finished(After(s, steps))
    ensures |steps| <= Work(s)
    ensures var e := After(s, steps);
      && e.reserved == s.reserved && |e.started| == Taken(e)
      && (forall i :: 0 <= i < |e.started| ==> e.started[i] == s.reserved[i].msg)
      && (e.q.num > 0 ==> !s.reserved[Taken(e)].wakes)
      && ((forall i :: 0 <= i < |s.reserved| ==> s.reserved[i].wakes) ==> e.q.num == 0 && |e.started| == |s.reserved|)
  {
    ReachableInv(s);
    FinishingIsBounded(s, steps);
    InvOnRuns(s, steps);
    var e := After(s, steps);
    SomebodyCanMove(e);
    QuiescentInv(e);
    FinishingReservesNothing(s, steps);
  }

  lemma {:induction false} FinishingReservesNothing(s: State, steps: seq<Step>)
    requires FinishingRun(s, steps)
    ensures After(s, steps).reserved == s.reserved
    decreases |steps|
  {
    if steps != [] {
      FinishingReservesNothing(Apply(s, steps[0]), steps[1..]);
    }
  }

  // ---- producers that do not call the handler ----

  /** One thread, one slot: it reserves, fills and publishes, and goes away. Nobody is left to look. */
  lemma MessageIsLeftWaiting(m: Msg) returns (steps: seq<Step>)
    requires FitsBuffer(m)
    ensures IsRun(Start(1, 1), steps)
    ensures var e := After(Start(1, 1), steps); Shape(e) && Quiescent(e) && e.q.num == 1 && HeadReady(e.q) && e.started == []
  {
    var s := Start(1, 1);
    var first := DoReserve(0, m, false);
    var rest := FillsUp(Apply(s, first));
    steps := [first] + rest;
    assert steps[1..] == rest;
  }

  lemma {:induction false} FillsUp(s: State) returns (steps: seq<Step>)
    requires Inv(s) && |s.threads| == 1 && s.threads[0].Filling? && !s.threads[0].inAction && !s.threads[0].wakes
    requires s.q.num == 1 && s.started == []
    ensures IsRun(s, steps)
    ensures var e := After(s, steps); Shape(e) && Quiescent(e) && e.q.num == 1 && HeadReady(e.q) && e.started == []
    decreases Stores(s.threads[0].msg) - s.threads[0].k
  {
    assert FillerOk(s, 0, s.threads[0]);
    var step := MoveOf(s, 0);
    KeepStep(s, step);
    var n := Apply(s, step);
    var rest := [];
    if step.DoStore? {
      rest := FillsUp(n);
    }
    steps := [step] + rest;
    assert steps[1..] == rest;
  }

  /** Nobody is filling a slot, and the queue is empty if nobody is in the loop or about to test it. */
  ghost predicate Draining(s: State) {
    && (forall t :: 0 <= t < |s.threads| ==> !s.threads[t].Filling?)
    && (s.runner == NOBODY || (Runs(s, s.runner) && s.threads[s.runner].Leaving?) ==> s.q.num == 0)
  }

  lemma {:induction false} DrainingKept(s: State, steps: seq<Step>)
    requires Inv(s) && Draining(s) && FinishingRun(s, steps)
    ensures Draining(After(s, steps))
    decreases |steps|
  {
    if steps != [] {
      KeepStep(s, steps[0]);
      if s.q.num > 0 {
        assert LiveOk(s, Taken(s));
      }
      DrainingKept(Apply(s, steps[0]), steps[1..]);
    }
  }

  /** The next call of MlmeHandler, whoever makes it, dispatches whatever was left waiting. */
  lemma NextCallDrains(s: State, t: nat, n: State, steps: seq<Step>)
    requires Reachable(s) && Quiescent(s) && Shape(s) && Enabled(s, DoEnter(t)) && n == Apply(s, DoEnter(t))
    requires FinishingRun(n, steps) && Shape(After(n, steps)) && Finished(After(n, steps))
    ensures var e := After(n, steps);
      && e.q.num == 0 && e.reserved == s.reserved && |e.started| == |s.reserved|
      && forall i :: 0 <= i < |s.reserved| ==> e.started[i] == s.reserved[i].msg
  {
    ReachableInv(s);
    QuiescentInv(s);
    KeepStep(s, DoEnter(t));
    DrainingKept(n, steps);
    InvOnRuns(n, steps);
    SomebodyCanMove(After(n, steps));
    QuiescentInv(After(n, steps));
    FinishingReservesNothing(n, steps);
  }
}
