/** The MLME message queue of Module/mlme.c: its shared memory, the critical sections that
    change it, and the class whose methods carry them out on the entry array. */
module MlmeQueue {
  import opened Modular
  import opened Sequences

  type byte = bv8

  const MAX_LEN_OF_MLME_BUFFER: nat := 2048

  /** What a producer asks to have delivered. */
  datatype Msg = Msg(machine: nat, msgType: nat, body: seq<byte>)

  /** One queue element. `buf` is the fixed-size message buffer. */
  datatype Elem = Elem(machine: nat, msgType: nat, msgLen: nat, occupied: bool, buf: seq<byte>)

  datatype Queue = Queue(num: nat, head: nat, tail: nat, entry: seq<Elem>, running: bool)

  predicate FitsBuffer(m: Msg) {
    |m.body| <= MAX_LEN_OF_MLME_BUFFER
  }

  ghost predicate WellFormed(q: Queue) {
    && 0 < |q.entry|
    && q.head < |q.entry| && q.tail < |q.entry| && q.num <= |q.entry|
    && (forall j :: 0 <= j < |q.entry| ==> |q.entry[j].buf| == MAX_LEN_OF_MLME_BUFFER)
    && (forall j :: 0 <= j < |q.entry| && q.entry[j].occupied ==> q.entry[j].msgLen <= MAX_LEN_OF_MLME_BUFFER)
  }

  // ---- the stores a producer makes between reserving and publishing a slot ----

  /** How many stores it takes to fill a slot: three header words, then the bytes of the body. */
  function Stores(m: Msg): nat {
    3 + |m.body|
  }

  /** The k-th store. */
  function StoreAt(e: Elem, m: Msg, k: nat): Elem
    requires FitsBuffer(m) && |e.buf| == MAX_LEN_OF_MLME_BUFFER && k < Stores(m)
  {
    if k == 0 then e.(machine := m.machine)
    else if k == 1 then e.(msgType := m.msgType)
    else if k == 2 then e.(msgLen := |m.body|)
    else e.(buf := e.buf[k - 3 := m.body[k - 3]])
  }

  /** The first k stores of `m` are in memory. */
  ghost predicate Written(e: Elem, m: Msg, k: nat) {
    && |e.buf| == MAX_LEN_OF_MLME_BUFFER && FitsBuffer(m) && k <= Stores(m)
    && (k > 0 ==> e.machine == m.machine)
    && (k > 1 ==> e.msgType == m.msgType)
    && (k > 2 ==> e.msgLen == |m.body|)
    && (forall j :: 0 <= j < k - 3 ==> e.buf[j] == m.body[j])
  }

  /** What a state machine reads from an element. */
  function Content(e: Elem): Msg
    requires e.msgLen <= |e.buf|
  {
    Msg(e.machine, e.msgType, e.buf[..e.msgLen])
  }

  ghost predicate Holds(e: Elem, m: Msg) {
    e.msgLen <= |e.buf| && Content(e) == m
  }

  lemma FullyWritten(e: Elem, m: Msg)
    requires Written(e, m, Stores(m))
    ensures Holds(e, m)
  {
    assert e.buf[..e.msgLen] == m.body;
  }

  // ---- the critical sections ----

  /** Producer, under the lock: takes the slot at Tail. */
  function Reserve(q: Queue): Queue
    requires q.num < |q.entry|
  {
    q.(num := q.num + 1, tail := if q.tail + 1 == |q.entry| then 0 else q.tail + 1)
  }

  function SetElem(q: Queue, slot: nat, e: Elem): Queue
    requires slot < |q.entry|
  {
    q.(entry := q.entry[slot := e])
  }

  function SetOccupied(q: Queue, slot: nat, b: bool): Queue
    requires slot < |q.entry|
  {
    SetElem(q, slot, q.entry[slot].(occupied := b))
  }

  /** What the handler's loop condition tests under the lock. */
  predicate HeadReady(q: Queue)
    requires q.head < |q.entry|
  {
    q.num > 0 && q.entry[q.head].occupied
  }

  /** Handler, under the lock: gives the head slot back. */
  function Dequeue(q: Queue): Queue
    requires 0 < |q.entry|
  {
    if q.num == 0 then q else q.(head := (q.head + 1) % |q.entry|, num := q.num - 1)
  }

  // ---- whole operations, as seen when nothing interleaves ----

  /** All stores from the k-th on. */
  function FillFrom(e: Elem, m: Msg, k: nat): (r: Elem)
    requires FitsBuffer(m) && |e.buf| == MAX_LEN_OF_MLME_BUFFER && k <= Stores(m)
    ensures |r.buf| == MAX_LEN_OF_MLME_BUFFER
    decreases Stores(m) - k
  {
    if k == Stores(m) then e else FillFrom(StoreAt(e, m, k), m, k + 1)
  }

  lemma {:induction false} FillFromWrites(e: Elem, m: Msg, k: nat)
    requires Written(e, m, k)
    ensures Holds(FillFrom(e, m, k), m)
    ensures FillFrom(e, m, k).occupied == e.occupied
    decreases Stores(m) - k
  {
    if k == Stores(m) {
      FullyWritten(e, m);
    } else {
      FillFromWrites(StoreAt(e, m, k), m, k + 1);
    }
  }

  function Enqueue(q: Queue, m: Msg): Queue
    requires WellFormed(q) && FitsBuffer(m) && q.num < |q.entry|
  {
    var r := Reserve(q);
    SetOccupied(SetElem(r, q.tail, FillFrom(q.entry[q.tail], m, 0)), q.tail, true)
  }

  /** The ready message at the head has been handled and its slot given back. */
  function AfterHead(q: Queue): Queue
    requires 0 < |q.entry| && q.head < |q.entry|
  {
    Dequeue(SetOccupied(q, q.head, false))
  }

  /** The messages that wait at the head, up to the first slot that is reserved but not published. */
  function Ready(q: Queue): seq<Msg>
    requires WellFormed(q)
    decreases q.num
  {
    if HeadReady(q) then
      [Content(q.entry[q.head])] + Ready(AfterHead(q))
    else []
  }

  /** The queue that is left once the ready messages have been handled. */
  function Drained(q: Queue): Queue
    requires WellFormed(q)
    decreases q.num
  {
    if HeadReady(q) then
      Drained(AfterHead(q))
    else q
  }

  /** Enqueuing appends to what the handler will find, when no bubble is in the way. */
  lemma {:induction false} EnqueueAppends(q: Queue, m: Msg)
    requires WellFormed(q) && FitsBuffer(m) && q.num < |q.entry|
    requires q.tail == (q.head + q.num) % |q.entry|
    requires |Ready(q)| == q.num
    ensures WellFormed(Enqueue(q, m))
    ensures Ready(Enqueue(q, m)) == Ready(q) + [m]
    decreases q.num
  {
    EnqueueKeepsShape(q, m);
    WrapNext(q.head, q.num, |q.entry|);
    if q.num == 0 {
      EnqueueIntoEmpty(q, m);
    } else {
      var rest := AfterHead(q);
      ReadyBound(rest);
      assert Ready(q) == [Content(q.entry[q.head])] + Ready(rest);
      EnqueueAppends(rest, m);
      EnqueueCommutes(q, m);
      AppendAssoc([Content(q.entry[q.head])], Ready(rest), [m]);
    }
  }

  lemma EnqueueKeepsShape(q: Queue, m: Msg)
    requires WellFormed(q) && FitsBuffer(m) && q.num < |q.entry|
    ensures WellFormed(Enqueue(q, m))
    ensures Enqueue(q, m).entry[q.tail].occupied && Content(Enqueue(q, m).entry[q.tail]) == m
  {
    FillFromWrites(q.entry[q.tail], m, 0);
    var e := FillFrom(q.entry[q.tail], m, 0);
    assert Content(e.(occupied := true)) == Content(e);
  }

  lemma EnqueueIntoEmpty(q: Queue, m: Msg)
    requires WellFormed(q) && FitsBuffer(m) && q.num == 0 && q.tail == q.head
    ensures WellFormed(Enqueue(q, m)) && Ready(q) == [] && Ready(Enqueue(q, m)) == [m]
  {
    EnqueueKeepsShape(q, m);
    assert AfterHead(Enqueue(q, m)).num == 0;
  }

  lemma WrapNext(head: nat, num: nat, cap: nat)
    requires head < cap && num < cap
    ensures num == 0 ==> (head + num) % cap == head
    ensures num > 0 ==> (head + num) % cap != head
    ensures num > 0 ==> ((head + 1) % cap + (num - 1)) % cap == (head + num) % cap
  {
    Wrap(head + num, cap);
    Wrap(head + 1, cap);
    if num > 0 {
      Wrap((head + 1) % cap + (num - 1), cap);
    }
  }

  /** Taking the ready head away commutes with enqueuing at another slot. */
  lemma EnqueueCommutes(q: Queue, m: Msg)
    requires WellFormed(q) && FitsBuffer(m) && q.num < |q.entry|
    requires HeadReady(q) && q.tail != q.head
    ensures HeadReady(Enqueue(q, m)) && Enqueue(q, m).entry[q.head] == q.entry[q.head]
    ensures AfterHead(Enqueue(q, m)) == Enqueue(AfterHead(q), m)
  {
    var l := AfterHead(Enqueue(q, m));
    var r := Enqueue(AfterHead(q), m);
    assert l.entry == r.entry;
  }

  lemma {:induction false} ReadyBound(q: Queue)
    requires WellFormed(q)
    ensures |Ready(q)| <= q.num
    decreases q.num
  {
    if HeadReady(q) {
      ReadyBound(AfterHead(q));
    }
  }

  /** Slot j is one of the n from Head on, around the ring. */
  predicate InWindow(head: nat, n: nat, cap: nat, j: nat) {
    if head <= j then j < head + n else j + cap < head + n
  }

  /** What a drain leaves: Head behind the messages delivered, their slots free, the rest as it was. */
  lemma {:induction false} DrainedLeaves(q: Queue, j: nat)
    requires WellFormed(q) && j < |q.entry|
    ensures var r, n := Drained(q), |Ready(q)|;
      && n <= q.num && r.num == q.num - n && r.tail == q.tail && r.running == q.running
      && r.head == (if q.head + n < |q.entry| then q.head + n else q.head + n - |q.entry|) && |r.entry| == |q.entry|
      && r.entry[j] == if InWindow(q.head, n, |q.entry|, j) then q.entry[j].(occupied := false) else q.entry[j]
    decreases q.num
  {
    ReadyBound(q);
    if HeadReady(q) {
      Wrap(q.head + 1, |q.entry|);
      DrainedLeaves(AfterHead(q), j);
    }
  }

  // ---- the class ----

  class Mlme {
    var num: nat
    var head: nat
    var tail: nat
    var running: bool
    const entry: array<Elem>

    ghost function View(): Queue
      reads this, entry
    {
      Queue(num, head, tail, entry[..], running)
    }

    ghost predicate Valid()
      reads this, entry
    {
      WellFormed(View())
    }

    /** MlmeQueueInit, with the queue length as a parameter. */
    constructor MlmeQueueInit(capacity: nat)
      requires 0 < capacity
      ensures Valid() && fresh(entry) && entry.Length == capacity
      ensures View() == Queue(0, 0, 0, seq(capacity, i => Elem(0, 0, 0, false, seq(MAX_LEN_OF_MLME_BUFFER, j => 0))), false)
    {
      num, head, tail, running := 0, 0, 0, false;
      entry := new Elem[capacity](i => Elem(0, 0, 0, false, seq(MAX_LEN_OF_MLME_BUFFER, j => 0)));
    }

    /** The critical section of MlmeEnqueue: FALSE on a full queue, else the slot now reserved. */
    method ReserveSlot() returns (ok: bool, slot: nat)
      requires Valid()
      modifies this
      ensures Valid()
      ensures ok == (old(num) < entry.Length)
      ensures ok ==> slot == old(tail) && View() == Reserve(old(View()))
      ensures !ok ==> View() == old(View())
    {
      if num == entry.Length {
        return false, 0;
      }
      slot := tail;
      tail := tail + 1;
      num := num + 1;
      if tail == entry.Length {
        tail := 0;
      }
      ok := true;
    }

    /** The unlocked part of MlmeEnqueue up to the write barrier. */
    method Fill(slot: nat, m: Msg)
      requires Valid() && slot < entry.Length && FitsBuffer(m) && !entry[slot].occupied
      modifies entry
      ensures Valid()
      ensures View() == SetElem(old(View()), slot, FillFrom(old(entry[slot]), m, 0))
    {
      ghost var e0 := entry[slot];
      entry[slot] := entry[slot].(machine := m.machine);
      entry[slot] := entry[slot].(msgType := m.msgType);
      entry[slot] := entry[slot].(msgLen := |m.body|);
      assert FillFrom(e0, m, 0) == FillFrom(StoreAt(e0, m, 0), m, 1);
      assert FillFrom(e0, m, 0) == FillFrom(StoreAt(StoreAt(e0, m, 0), m, 1), m, 2);
      assert FillFrom(e0, m, 0) == FillFrom(entry[slot], m, 3);
      var k := 0;
      while k < |m.body|
        invariant k <= |m.body|
        invariant |entry[slot].buf| == MAX_LEN_OF_MLME_BUFFER && !entry[slot].occupied
        invariant FillFrom(e0, m, 0) == FillFrom(entry[slot], m, 3 + k)
        invariant entry[..] == old(entry[..])[slot := entry[slot]]
      {
        entry[slot] := entry[slot].(buf := entry[slot].buf[k := m.body[k]]);
        k := k + 1;
      }
    }

    /** The last store of MlmeEnqueue. */
    method Publish(slot: nat)
      requires Valid() && slot < entry.Length && entry[slot].msgLen <= MAX_LEN_OF_MLME_BUFFER
      modifies entry
      ensures Valid()
      ensures View() == SetOccupied(old(View()), slot, true)
    {
      entry[slot] := entry[slot].(occupied := true);
    }

    /** No slot is reserved but unpublished, and the slots in use are those from Head up to Tail. */
    ghost predicate NoBubble()
      requires Valid()
      reads this, entry
    {
      tail == (head + num) % entry.Length && |Ready(View())| == num
    }

    /** MlmeEnqueue run without interleaving. What is accepted is the next message a drain delivers
        after those that wait. */
    method MlmeEnqueue(halting: bool, m: Msg) returns (ok: bool)
      requires Valid() && (num < entry.Length ==> !entry[tail].occupied)
      modifies this, entry
      ensures Valid()
      ensures ok <==> !halting && |m.body| <= MAX_LEN_OF_MLME_BUFFER && old(num) < entry.Length
      ensures View() == if ok then Enqueue(old(View()), m) else old(View())
      ensures old(NoBubble()) ==> Ready(View()) == old(Ready(View())) + (if ok then [m] else [])
    {
      ghost var q := View();
      if halting || |m.body| > MAX_LEN_OF_MLME_BUFFER {
        return false;
      }
      var slot;
      ok, slot := ReserveSlot();
      if ok {
        FillFromWrites(entry[slot], m, 0);
        Fill(slot, m);
        Publish(slot);
        assert View() == Enqueue(q, m);
        if q.tail == (q.head + q.num) % |q.entry| && |Ready(q)| == q.num {
          EnqueueAppends(q, m);
        }
      }
    }

    /** MlmeGetHead together with the Occupied test. */
    method HeadIsReady() returns (ready: bool)
      requires Valid()
      ensures ready == HeadReady(View())
    {
      ready := num != 0 && entry[head].occupied;
    }

    method MlmeDequeue() returns (ok: bool)
      requires Valid()
      modifies this
      ensures Valid()
      ensures ok == (old(num) != 0) && View() == Dequeue(old(View()))
    {
      if num == 0 {
        return false;
      }
      head := (head + 1) % entry.Length;
      num := num - 1;
      ok := true;
    }

    /** MlmeHandler run without interleaving; `handled` is what the state machines were given. */
    method MlmeHandler() returns (handled: seq<Msg>)
      requires Valid()
      modifies this, entry
      ensures Valid()
      ensures old(running) ==> handled == [] && View() == old(View())
      ensures !old(running) ==> handled == Ready(old(View())) && View() == Drained(old(View()))
    {
      handled := [];
      if running {
        return;
      }
      running := true;
      ghost var q0 := View();
      var ready := HeadIsReady();
      while ready
        invariant Valid() && running
        invariant ready == HeadReady(View())
        invariant Ready(q0) == handled + Ready(View())
        invariant Drained(q0) == Drained(View())
        decreases num
      {
        ghost var q := View();
        var m := Content(entry[head]);
        entry[head] := entry[head].(occupied := false);
        var _ := MlmeDequeue();
        assert View() == AfterHead(q);
        AppendAssoc(handled, [m], Ready(View()));
        handled := handled + [m];
        ready := HeadIsReady();
      }
      running := false;
      RunningIrrelevant(old(View()));
    }
  }

  /** The handler's queue differs from the one it started on only by the Running flag. */
  lemma {:induction false} RunningIrrelevant(q: Queue)
    requires WellFormed(q)
    ensures Ready(q.(running := true)) == Ready(q)
    ensures Drained(q.(running := true)) == Drained(q).(running := true)
    ensures Drained(q).running == q.running
    decreases q.num
  {
    if HeadReady(q) {
      RunningIrrelevant(AfterHead(q));
    }
  }
}
