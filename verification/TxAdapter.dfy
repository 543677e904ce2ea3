/** The routines of the transmit path as they run: descriptors updated in place, the software queue
    and the pending-packet count reassigned. */
module TxAdapter {
  import opened Fragment
  import opened Sequences
  import opened TxRing
  import opened TxPath

  /** One for a packet that RELEASE_NDIS_PACKET counts. */
  function Counted(p: Packet): int {
    if p.fromNdis then 1 else 0
  }

  ghost function CountedIn(ps: seq<Packet>): int {
    Sum(Counted, ps)
  }

  /** A result that comes after `released` and `skips`. */
  ghost function Behind(released: seq<Packet>, skips: nat, x: Reaped): Reaped {
    Reaped(x.ring, released + x.released, skips + x.skips)
  }

  ghost function BehindDrain(released: seq<Packet>, made: seq<Packet>, d: Drain): Drain {
    Drain(d.queue, d.ring, released + d.released, made + d.clones)
  }

  lemma BehindNothing(d: Drain)
    ensures BehindDrain([], [], d) == d
  {
    EmptyPrefix(d.released);
    EmptyPrefix(d.clones);
  }

  lemma BehindBoth(released: seq<Packet>, made: seq<Packet>, more: seq<Packet>, now: seq<Packet>, d: Drain)
    ensures BehindDrain(released, made, BehindDrain(more, now, d)) == BehindDrain(released + more, made + now, d)
  {
    AppendAssoc(released, more, d.released);
    AppendAssoc(made, now, d.clones);
  }

  class TxAdapter {
    const cell: array<Cell>
    var cur: nat
    var nextDone: nat
    var swQueue: seq<Packet>
    var pending: int
    ghost var len: nat
    ghost var done: nat

    ghost function View(): Ring
      reads this, cell
    {
      Ring(cell[..], cur, nextDone)
    }

    ghost predicate Valid()
      reads this, cell
    {
      RingInv(View(), len, done)
    }

    /** NICInitTxRxRingAndBacklogQueue. */
    constructor (size: nat)
      requires 0 < size
      ensures Valid() && fresh(cell) && View() == CleanRing(size) && swQueue == [] && pending == 0
    {
      cell := new Cell[size](i => CLEAN_CELL);
      cur, nextDone, swQueue, pending, len, done := 0, 0, [], 0, 0, 0;
      new;
      assert cell[..] == CleanRing(size).cell;
    }

    /** RELEASE_NDIS_PACKET. */
    method Release(p: Packet)
      modifies `pending
      ensures pending == old(pending) - Counted(p)
    {
      if p.fromNdis {
        pending := pending - 1;
      }
    }

    method FreeTXDRequest(required: nat) returns (ok: bool, free: nat)
      requires Valid()
      ensures free == cell.Length - len && ok == (free >= required)
    {
      FreeNumberIsExact(View(), len, done);
      var f := 0;
      if !cell[cur].waiting {
        f := cell.Length + nextDone - cur;
        if f > cell.Length {
          f := f - cell.Length;
        }
      }
      free := f;
      ok := f >= required;
    }

    /** The descriptor writes that end in RTMPWriteTxDescriptor, and INC_RING_INDEX. */
    method WriteTxd(skb: Option<Packet>)
      requires Valid() && len < cell.Length
      modifies this`cur, this`len, cell
      ensures Valid() && View() == Post(old(View()), skb, None) && len == old(len) + 1
    {
      PostKeeps(View(), len, done, skb, None);
      ghost var r := View();
      cell[cur] := Cell(true, true, skb, None);
      cur := cur + 1;
      if cur >= cell.Length {
        cur := 0;
      }
      len := len + 1;
      assert View() == Post(r, skb, None);
    }

    /** RTMPSendNullFrame, and the sending half of RTMPSendRTSCTSFrame. */
    method SendControl()
      requires Valid()
      modifies this`cur, this`len, cell
      ensures Valid() && View() == PostControl(old(View()))
    {
      FreeNumberIsExact(View(), len, done);
      if cell[cur].ownedByNic || cell[cur].waiting {
        return;
      }
      WriteTxd(None);
    }

    /** The NIC has finished with its oldest descriptor, the one at j. */
    method NicReturnsOldest(j: nat)
      requires Valid() && done < len && j == At(View(), done)
      modifies this`done, cell
      ensures Valid() && View() == NicReturns(old(View()), j) && done == old(done) + 1
    {
      NicKeeps(View(), len, done);
      ghost var r := View();
      cell[j] := cell[j].(ownedByNic := false);
      done := done + 1;
      assert View() == NicReturns(r, j);
    }

    /** Step 5 of RTMPHardTransmit: the loop over the MPDUs of one buffer. */
    method SendBuffer(c: Config, payload: nat, p: Packet) returns (status: Status, released: seq<Packet>)
      requires Valid()
      modifies this`cur, this`len, this`pending, cell
      ensures Valid()
      ensures var x := SendMpdus(old(View()), c, payload, 0, p, cell.Length - old(len));
        View() == x.ring && status == x.status && released == x.released
      ensures pending == old(pending) - CountedIn(released)
    {
      var remaining, frag := payload, 0;
      ghost var x := SendMpdus(View(), c, payload, 0, p, cell.Length - len);
      while true
        invariant Valid() && pending == old(pending)
        invariant x == SendMpdus(View(), c, remaining, frag, p, cell.Length - len)
        decreases cell.Length - len
      {
        FreeNumberIsExact(View(), len, done);
        if cell[cur].ownedByNic || cell[cur].waiting {
          Release(p);
          SumOne(Counted, p);
          return Resources, [p];
        }
        var free := FreeMpduSize(c, frag);
        var take := if remaining <= free then remaining else free;
        remaining := remaining - take;
        if remaining > 0 {
          WriteTxd(None);
          frag := frag + 1;
        } else {
          WriteTxd(Some(p));
          return Success, [];
        }
      }
    }

    /** What RTMPHardTransmit does with the buffer it settled on. */
    method TransmitBuffer(p: Packet, e: Env) returns (status: Status, released: seq<Packet>)
      requires Valid() && p.len >= LENGTH_802_3
      modifies this`cur, this`len, this`pending, cell
      ensures Valid()
      ensures var x := TxPath.TransmitBuffer(old(View()), p, e);
        View() == x.ring && status == x.status && released == x.released
      ensures pending == old(pending) - CountedIn(released)
    {
      SumOne(Counted, p);
      FreeNumberIsExact(View(), len, done);
      if e.portClosed {
        Release(p);
        return Failure, [p];
      }
      if p.rts != 0 || e.rtsProtection {
        if !ToGroup(p, e) {
          SendControl();
        }
      } else if e.ctsProtection {
        SendControl();
      }
      FreeNumberIsExact(View(), len, done);
      status, released := SendBuffer(ConfigOf(p, e), PayloadOf(p, e), p);
    }

    /** The path of an injected frame. */
    method Inject(p: Packet) returns (status: Status, released: seq<Packet>)
      requires Valid()
      modifies this`cur, this`len, this`pending, cell
      ensures Valid()
      ensures var r := old(View());
        && View() == (if IsFull(r) then r else Post(r, Some(p), None))
        && (status, released) == if IsFull(r) then (Resources, [p]) else (Success, [])
      ensures pending == old(pending) - CountedIn(released)
    {
      SumOne(Counted, p);
      FreeNumberIsExact(View(), len, done);
      if cell[cur].ownedByNic || cell[cur].waiting {
        Release(p);
        return Resources, [p];
      }
      WriteTxd(Some(p));
      return Success, [];
    }

    /** RTMPHardTransmit. */
    method HardTransmit(p: Packet, e: Env) returns (status: Status, released: seq<Packet>)
      requires Valid()
      modifies this`cur, this`len, this`pending, cell
      ensures Valid()
      ensures var x := TxPath.HardTransmit(old(View()), p, e);
        View() == x.ring && status == x.status && released == x.released
      ensures pending == old(pending) - CountedIn(released)
    {
      if e.injecting {
        status, released := Inject(p);
        return;
      }
      SumOne(Counted, p);
      if e.radarSilence || p.len < LENGTH_802_3 {
        Release(p);
        return Failure, [p];
      }
      released := [];
      var buffer := p;
      if NeedsClone(p, e) {
        Release(p);
        released := [p];
        if e.clone.None? {
          return Failure, released;
        }
        buffer := CloneOf(p, e.clone.value);
      }
      var more;
      status, more := TransmitBuffer(buffer, e);
      SumAppend(Counted, released, more);
      released := released + more;
    }

    /** RTMPSendPacket. */
    method SendPacket(p: Packet, skbNull: bool, threshold: nat, rtsThreshold: nat)
      returns (released: seq<Packet>)
      requires U32(threshold - LENGTH_802_11 - LENGTH_CRC) != 0
      modifies this`swQueue, this`pending
      ensures var s := TxPath.SendPacket(old(swQueue), p, skbNull, threshold, rtsThreshold);
        swQueue == s.queue && released == s.released
      ensures pending == old(pending) - CountedIn(released)
    {
      if skbNull {
        Release(p);
        SumOne(Counted, p);
        return [p];
      }
      var numberOfFrag := 1;
      if !p.multicast {
        var allowFragSize := U32(threshold - LENGTH_802_11 - LENGTH_CRC);
        numberOfFrag := (U32(p.len - LENGTH_802_3 + LENGTH_802_1_H) / allowFragSize + 1) % 256;
      }
      var rtsRequired := 0;
      if numberOfFrag > 1 {
        if threshold > rtsThreshold {
          rtsRequired := 1;
        }
      } else if p.len > rtsThreshold {
        rtsRequired := 1;
      }
      swQueue := swQueue + [p.(frags := numberOfFrag, rts := rtsRequired)];
      released := [];
    }

    /** One turn of RTMPDeQueuePacket's loop, in the circumstances envs[0]; `stop` on break. */
    method DeQueueOne(ghost envs: seq<Env>, e: Env) returns (stop: bool, released: seq<Packet>, ghost made: seq<Packet>)
      requires Valid() && envs != [] && envs[0] == e
      modifies this`swQueue, this`cur, this`len, this`pending, cell
      ensures Valid() && pending == old(pending) - CountedIn(released)
      ensures var d := DeQueue(old(swQueue), old(View()), envs);
        d == if stop then Drain(swQueue, View(), released, made)
             else BehindDrain(released, made, DeQueue(swQueue, View(), envs[1..]))
    {
      if swQueue == [] {
        return true, [], [];
      }
      ghost var q, r := swQueue, View();
      var p := swQueue[0];
      swQueue := swQueue[1..];
      FreeNumberIsExact(View(), len, done);
      var ok, _ := FreeTXDRequest(MpduRequired(p));
      if !ok {
        swQueue := [p] + swQueue;
        return true, [], [];
      }
      var status;
      status, released := HardTransmit(p, e);
      made := Made(p, e);
      DeQueueTurn(q, r, envs, View());
      stop := status != Success;
    }

    /** The turn in the loop: what it releases goes behind what was released before. */
    method DeQueueNext(ghost envs: seq<Env>, e: Env, before: seq<Packet>, ghost made: seq<Packet>,
                       ghost d: Drain, ghost rest: Drain)
      returns (stop: bool, released: seq<Packet>, ghost made': seq<Packet>, ghost rest': Drain)
      requires Valid() && envs != [] && envs[0] == e
      requires rest == DeQueue(swQueue, View(), envs) && d == BehindDrain(before, made, rest)
      modifies this`swQueue, this`cur, this`len, this`pending, cell
      ensures Valid() && pending + CountedIn(released) == old(pending) + CountedIn(before)
      ensures rest' == DeQueue(swQueue, View(), envs[1..])
      ensures d == if stop then Drain(swQueue, View(), released, made') else BehindDrain(released, made', rest')
    {
      var more;
      ghost var now;
      stop, more, now := DeQueueOne(envs, e);
      rest' := DeQueue(swQueue, View(), envs[1..]);
      SumAppend(Counted, before, more);
      BehindBoth(before, made, more, now, rest');
      released, made' := before + more, made + now;
    }

    /** RTMPDeQueuePacket, with the circumstances of at most MAX_TX_PROCESS transmissions. */
    method DeQueuePacket(envs: seq<Env>) returns (released: seq<Packet>)
      requires Valid() && |envs| == 4
      modifies this`swQueue, this`cur, this`len, this`pending, cell
      ensures Valid() && pending == old(pending) - CountedIn(released)
      ensures var d := DeQueue(old(swQueue), old(View()), envs);
        swQueue == d.queue && View() == d.ring && released == d.released
    {
      released := [];
      var count := 0;
      ghost var made := [];
      ghost var d := DeQueue(swQueue, View(), envs);
      ghost var rest := d;
      assert envs[0..] == envs;
      BehindNothing(d);
      while count < MAX_TX_PROCESS
        invariant count <= MAX_TX_PROCESS && Valid()
        invariant rest == DeQueue(swQueue, View(), envs[count..]) && d == BehindDrain(released, made, rest)
        invariant pending == old(pending) - CountedIn(released)
      {
        assert envs[count..][1..] == envs[count + 1..];
        var stop;
        stop, released, made, rest := DeQueueNext(envs[count..], envs[count], released, made, d, rest);
        if stop {
          return;
        }
        count := count + 1;
      }
    }

    /** The loop of RTMPFreeTXDUponTxDmaDone. `skips` counts the turns the code comments as impossible. */
    method ReapCells() returns (released: seq<Packet>, skips: nat)
      requires Bounds(View())
      modifies this`nextDone, this`pending, cell
      ensures var x := Reap(old(View()), cell.Length);
        View() == x.ring && released == x.released && skips == x.skips
      ensures pending == old(pending) - CountedIn(released)
    {
      ghost var r0 := View();
      released, skips := [], 0;
      var i := 0;
      while i < cell.Length
        invariant 0 <= i <= cell.Length && Bounds(View())
        invariant Reap(r0, cell.Length) == Behind(released, skips, Reap(View(), cell.Length - i))
        invariant pending == old(pending) - CountedIn(released)
      {
        var c := cell[nextDone];
        if c.ownedByNic {
          break;
        }
        if !c.waiting {
          if nextDone == cur {
            break;
          }
          nextDone := Inc(nextDone, cell.Length);
          skips := skips + 1;
        } else {
          ghost var r := View();
          cell[nextDone] := c.(waiting := false, skb := None, nextSkb := None);
          nextDone := Inc(nextDone, cell.Length);
          assert View() == ReapOne(r);
          ReleaseAll(c);
          SumAppend(Counted, released, CellPackets(c));
          AppendAssoc(released, CellPackets(c), Reap(View(), cell.Length - i - 1).released);
          released := released + CellPackets(c);
        }
        i := i + 1;
      }
    }

    /** RTMPFreeTXDUponTxDmaDone. */
    method DmaDone() returns (released: seq<Packet>, skips: nat)
      requires Bounds(View())
      modifies this`nextDone, this`pending, this`len, this`done, cell
      ensures var x := Reap(old(View()), cell.Length);
        View() == x.ring && released == x.released && skips == x.skips
      ensures pending == old(pending) - CountedIn(released)
      ensures old(Valid()) ==> Valid() && skips == 0 && released == Oldest(old(View()), old(done))
      ensures old(Valid()) ==> done == 0 && len == old(len) - old(done)
    {
      ghost var r0 := View();
      released, skips := ReapCells();
      if RingInv(r0, len, done) {
        ReapIsExact(r0, Reap(r0, cell.Length), len, done, cell.Length, done);
        len, done := len - done, 0;
      }
    }

    /** Both buffers a control block may hold. */
    method ReleaseAll(c: Cell)
      modifies `pending
      ensures pending == old(pending) - CountedIn(CellPackets(c))
    {
      if c.skb.Some? {
        Release(c.skb.value);
      }
      if c.nextSkb.Some? {
        Release(c.nextSkb.value);
      }
      TwoCounted(c);
    }

    /** The locked half of RTMPRingCleanUp: all cells, whatever state they are in. */
    method CleanCells() returns (released: seq<Packet>)
      requires 0 < cell.Length
      modifies this`cur, this`nextDone, this`len, this`done, this`pending, cell
      ensures Valid() && View() == CleanRing(cell.Length)
      ensures released == CleanFrom(old(cell[..]), 0)
      ensures pending == old(pending) - CountedIn(released)
    {
      released := [];
      var i := 0;
      ghost var cells := cell[..];
      while i < cell.Length
        invariant 0 <= i <= cell.Length
        invariant forall j :: 0 <= j < i ==> cell[j] == CLEAN_CELL
        invariant forall j :: i <= j < cell.Length ==> cell[j] == cells[j]
        invariant CleanFrom(cells, 0) == released + CleanFrom(cells, i)
        invariant pending == old(pending) - CountedIn(released)
      {
        var c := cell[i];
        ReleaseAll(c);
        SumAppend(Counted, released, CellPackets(c));
        AppendAssoc(released, CellPackets(c), CleanFrom(cells, i + 1));
        released := released + CellPackets(c);
        cell[i] := CLEAN_CELL;
        i := i + 1;
      }
      cur, nextDone, len, done := 0, 0, 0, 0;
      assert cell[..] == CleanRing(cell.Length).cell;
      CleanRingIsEmpty(Counted, cell.Length);
    }

    /** RTMPRingCleanUp for a data ring and its software queue. */
    method RingCleanUp() returns (released: seq<Packet>)
      requires 0 < cell.Length
      modifies this, cell
      ensures Valid() && View() == CleanRing(cell.Length) && swQueue == []
      ensures released == CleanFrom(old(cell[..]), 0) + old(swQueue)
      ensures pending == old(pending) - CountedIn(released)
    {
      var fromCells := CleanCells();
      released := fromCells;
      while swQueue != []
        invariant Valid() && View() == CleanRing(cell.Length)
        invariant released + swQueue == fromCells + old(swQueue)
        invariant pending == old(pending) - CountedIn(released)
        decreases |swQueue|
      {
        var p := swQueue[0];
        SumOne(Counted, p);
        SumAppend(Counted, released, [p]);
        swQueue := swQueue[1..];
        Release(p);
        released := released + [p];
      }
      assert released == released + swQueue;
    }
  }

  lemma TwoCounted(c: Cell)
    ensures CountedIn(CellPackets(c))
      == (if c.skb.Some? then Counted(c.skb.value) else 0) + (if c.nextSkb.Some? then Counted(c.nextSkb.value) else 0)
  {
    if c.skb.Some? {
      SumOne(Counted, c.skb.value);
      if c.nextSkb.Some? {
        SumOne(Counted, c.nextSkb.value);
        SumAppend(Counted, [c.skb.value], [c.nextSkb.value]);
        assert [c.skb.value] + [c.nextSkb.value] == CellPackets(c);
      }
    } else if c.nextSkb.Some? {
      SumOne(Counted, c.nextSkb.value);
    }
  }
}
