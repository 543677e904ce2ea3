/** The transmit descriptor ring of Module/rtmp_data.c: posting, the free count, the NIC handing
    descriptors back, the DMA-done routine and the clean-up. */
module TxRing {
  import opened Sequences

  datatype Option<T> = None | Some(value: T)

  /** A socket buffer. `fromNdis` tells PKTSRC_NDIS from PKTSRC_DRIVER; `frags` and `rts` are what
      RTMPSendPacket leaves in the control block. */
  datatype Packet = Packet(id: nat, fromNdis: bool, len: nat, multicast: bool, llc: bool, paged: bool,
                           frags: nat, rts: nat)

  /** A descriptor with its control block: Owner, bWaitingDmaDoneInt, pSkb, pNextSkb. */
  datatype Cell = Cell(ownedByNic: bool, waiting: bool, skb: Option<Packet>, nextSkb: Option<Packet>)

  datatype Ring = Ring(cell: seq<Cell>, cur: nat, nextDone: nat)

  const CLEAN_CELL := Cell(false, false, None, None)

  /** INC_RING_INDEX. */
  function Inc(i: nat, size: nat): nat {
    if i + 1 >= size then 0 else i + 1
  }

  predicate Bounds(r: Ring) {
    r.cur < |r.cell| && r.nextDone < |r.cell|
  }

  /** The test every sender makes before it takes the descriptor at CurTxIndex. */
  predicate IsFull(r: Ring)
    requires Bounds(r)
  {
    r.cell[r.cur].ownedByNic || r.cell[r.cur].waiting
  }

  /** Filling the cell at CurTxIndex, RTMPWriteTxDescriptor's two bits, and moving on. */
  function Post(r: Ring, skb: Option<Packet>, nextSkb: Option<Packet>): Ring
    requires Bounds(r)
  {
    r.(cell := r.cell[r.cur := Cell(true, true, skb, nextSkb)], cur := Inc(r.cur, |r.cell|))
  }

  /** FreeNumber of RTMPFreeTXDRequest. */
  function FreeNumber(r: Ring): int
    requires Bounds(r)
  {
    if r.cell[r.cur].waiting then 0
    else
      var f := |r.cell| + r.nextDone - r.cur;
      if f > |r.cell| then f - |r.cell| else f
  }

  /** The NIC has transmitted the frame at cell j and flips its Owner bit. */
  function NicReturns(r: Ring, j: nat): Ring
    requires j < |r.cell|
  {
    r.(cell := r.cell[j := r.cell[j].(ownedByNic := false)])
  }

  /** The packets a cell holds, in the order in which they are released. */
  function CellPackets(c: Cell): seq<Packet> {
    match (c.skb, c.nextSkb)
    case (None, None) => []
    case (Some(p), None) => [p]
    case (None, Some(q)) => [q]
    case (Some(p), Some(q)) => [p, q]
  }

  /** `skips` counts the passes through the branch the code marks as one it should never reach. */
  datatype Reaped = Reaped(ring: Ring, released: seq<Packet>, skips: nat)

  /** RTMPFreeTXDUponTxDmaDone with at most `budget` turns of its loop. */
  function Reap(r: Ring, budget: nat): Reaped
    requires Bounds(r)
    decreases budget
  {
    if budget == 0 then Reaped(r, [], 0)
    else
      var c := r.cell[r.nextDone];
      if c.ownedByNic then Reaped(r, [], 0)
      else if !c.waiting then
        if r.nextDone != r.cur then
          var x := Reap(r.(nextDone := Inc(r.nextDone, |r.cell|)), budget - 1);
          x.(skips := x.skips + 1)
        else Reaped(r, [], 0)
      else
        Prepend(CellPackets(c), Reap(ReapOne(r), budget - 1))
  }

  function Prepend(first: seq<Packet>, x: Reaped): Reaped {
    x.(released := first + x.released)
  }

  function ReapOne(r: Ring): Ring
    requires Bounds(r)
  {
    r.(cell := r.cell[r.nextDone := r.cell[r.nextDone].(waiting := false, skb := None, nextSkb := None)],
       nextDone := Inc(r.nextDone, |r.cell|))
  }

  // ---- the invariant: one circular segment ----

  /** The d-th cell counted from NextTxDmaDoneIndex, at most one turn round. */
  ghost function At(r: Ring, d: nat): (j: nat)
    requires Bounds(r) && d <= |r.cell|
    ensures j < |r.cell|
  {
    if r.nextDone + d < |r.cell| then r.nextDone + d else r.nextDone + d - |r.cell|
  }

  /** `len` cells wait for the DMA-done interrupt, and the NIC is through with the first `done`. */
  ghost predicate RingInv(r: Ring, len: nat, done: nat) {
    && Bounds(r)
    && done <= len <= |r.cell|
    && r.cur == At(r, len)
    && forall d :: 0 <= d < |r.cell| ==> CellInv(r.cell[At(r, d)], d, len, done)
  }

  ghost predicate CellInv(c: Cell, d: nat, len: nat, done: nat) {
    if d < len then c.waiting && (c.ownedByNic <==> done <= d)
    else c == CLEAN_CELL
  }

  ghost predicate Valid(r: Ring) {
    exists len: nat, done: nat :: RingInv(r, len, done)
  }

  /** Every cell is the d-th for one d. */
  lemma AtOnto(r: Ring, j: nat) returns (d: nat)
    requires Bounds(r) && j < |r.cell|
    ensures d < |r.cell| && At(r, d) == j
  {
    d := if r.nextDone <= j then j - r.nextDone else j + |r.cell| - r.nextDone;
  }

  ghost predicate InSegment(r: Ring, len: nat, j: nat)
    requires Bounds(r) && len <= |r.cell|
  {
    exists d: nat :: d < len && At(r, d) == j
  }

  /** The cells that wait are exactly the segment from NextTxDmaDoneIndex up to CurTxIndex, and the
      free count is exactly what is left: zero when full, the ring size when empty. */
  lemma FreeNumberIsExact(r: Ring, len: nat, done: nat)
    requires RingInv(r, len, done)
    ensures FreeNumber(r) == |r.cell| - len
    ensures IsFull(r) <==> len == |r.cell|
    ensures forall j :: 0 <= j < |r.cell| ==> (r.cell[j].waiting <==> InSegment(r, len, j))
  {
    assert CellInv(r.cell[At(r, 0)], 0, len, done);
    if len < |r.cell| {
      assert CellInv(r.cell[At(r, len)], len, len, done);
    }
    forall j | 0 <= j < |r.cell|
      ensures r.cell[j].waiting <==> InSegment(r, len, j)
    {
      var d := AtOnto(r, j);
      assert CellInv(r.cell[At(r, d)], d, len, done);
      if InSegment(r, len, j) {
        var e: nat :| e < len && At(r, e) == j;
        assert CellInv(r.cell[At(r, e)], e, len, done);
      }
    }
  }

  lemma PostKeeps(r: Ring, len: nat, done: nat, skb: Option<Packet>, nextSkb: Option<Packet>)
    requires RingInv(r, len, done) && len < |r.cell|
    ensures RingInv(Post(r, skb, nextSkb), len + 1, done)
  {
    var r' := Post(r, skb, nextSkb);
    forall d | 0 <= d < |r'.cell| ensures CellInv(r'.cell[At(r', d)], d, len + 1, done) {
      assert CellInv(r.cell[At(r, d)], d, len, done);
    }
  }

  /** The NIC works oldest first, so what it gives back extends the finished part of the segment. */
  lemma NicKeeps(r: Ring, len: nat, done: nat)
    requires RingInv(r, len, done) && done < len
    ensures RingInv(NicReturns(r, At(r, done)), len, done + 1)
  {
    var r' := NicReturns(r, At(r, done));
    forall d | 0 <= d < |r'.cell| ensures CellInv(r'.cell[At(r', d)], d, len, done + 1) {
      assert CellInv(r.cell[At(r, d)], d, len, done);
    }
  }

  lemma ReapOneKeeps(r: Ring, len: nat, done: nat)
    requires RingInv(r, len, done) && 0 < done
    ensures RingInv(ReapOne(r), len - 1, done - 1)
  {
    var r' := ReapOne(r);
    assert CellInv(r.cell[At(r, 0)], 0, len, done);
    forall d | 0 <= d < |r'.cell| ensures CellInv(r'.cell[At(r', d)], d, len - 1, done - 1) {
      if d + 1 < |r.cell| {
        assert CellInv(r.cell[At(r, d + 1)], d + 1, len, done);
      }
    }
  }

  /** The packets in the first n cells of the segment, oldest first. */
  ghost function Oldest(r: Ring, n: nat): seq<Packet>
    requires Bounds(r) && n <= |r.cell|
  {
    if n == 0 then [] else Oldest(r, n - 1) + CellPackets(r.cell[At(r, n - 1)])
  }

  lemma {:induction false} OldestFromSecond(r: Ring, n: nat)
    requires Bounds(r) && n < |r.cell|
    ensures Oldest(r, n + 1) == CellPackets(r.cell[r.nextDone]) + Oldest(ReapOne(r), n)
  {
    var r' := ReapOne(r);
    var first := CellPackets(r.cell[r.nextDone]);
    assert Oldest(r, n + 1) == Oldest(r, n) + CellPackets(r.cell[At(r, n)]);
    if n > 0 {
      var last := CellPackets(r.cell[At(r, n)]);
      OldestFromSecond(r, n - 1);
      assert Oldest(r', n) == Oldest(r', n - 1) + last by {
        assert At(r', n - 1) == At(r, n) != r.nextDone;
      }
      AppendAssoc(first, Oldest(r', n - 1), last);
    }
  }

  /** One turn of the loop in a consistent ring. */
  lemma ReapTurn(r: Ring, len: nat, done: nat, budget: nat)
    requires RingInv(r, len, done) && budget > 0
    ensures done == 0 ==> Reap(r, budget) == Reaped(r, [], 0)
    ensures done > 0 ==>
      Reap(r, budget) == Prepend(CellPackets(r.cell[r.nextDone]), Reap(ReapOne(r), budget - 1))
  {
    assert CellInv(r.cell[At(r, 0)], 0, len, done);
  }

  ghost predicate ReapedOldest(r: Ring, x: Reaped, len: nat, done: nat, n: nat) {
    && Bounds(r) && n <= done <= len <= |r.cell|
    && x.skips == 0
    && x.released == Oldest(r, n)
    && RingInv(x.ring, len - n, done - n)
  }

  lemma ReapedOneMore(r: Ring, x: Reaped, len: nat, done: nat, n: nat)
    requires Bounds(r) && 0 < n <= done <= len <= |r.cell|
    requires ReapedOldest(ReapOne(r), x, len - 1, done - 1, n - 1)
    ensures ReapedOldest(r, Prepend(CellPackets(r.cell[r.nextDone]), x), len, done, n)
  {
    OldestFromSecond(r, n - 1);
  }

  lemma ReapStops(r: Ring, len: nat, done: nat, budget: nat)
    requires RingInv(r, len, done) && (budget == 0 || done == 0)
    ensures ReapedOldest(r, Reap(r, budget), len, done, 0)
  {
    if budget > 0 {
      ReapTurn(r, len, done, budget);
    }
  }

  lemma ReapGoesOn(r: Ring, r1: Ring, x: Reaped, len: nat, l: nat, done: nat, d: nat, budget: nat, n: nat, m: nat)
    requires RingInv(r, len, done) && budget > 0 && 0 < n <= done && l == len - 1 && d == done - 1 && m == n - 1
    requires r1 == ReapOne(r) && x == Reap(r1, budget - 1) && ReapedOldest(r1, x, l, d, m)
    ensures ReapedOldest(r, Reap(r, budget), len, done, n)
  {
    ReapTurn(r, len, done, budget);
    ReapedOneMore(r, x, len, done, n);
  }

  /** DMA-done frees exactly the finished cells, oldest first, releases exactly the packets they
      hold, and never takes the branch that skips a cell. */
  lemma {:induction false} ReapIsExact(r: Ring, x: Reaped, len: nat, done: nat, budget: nat, n: nat)
    requires RingInv(r, len, done) && x == Reap(r, budget)
    requires n == if done <= budget then done else budget
    ensures ReapedOldest(r, x, len, done, n)
    decreases n
  {
    if n == 0 {
      ReapStops(r, len, done, budget);
    } else {
      var r1, b := ReapOne(r), budget - 1;
      var rest := Reap(r1, b);
      ReapOneKeeps(r, len, done);
      var l: nat, d: nat, m: nat := len - 1, done - 1, n - 1;
      ReapIsExact(r1, rest, l, d, b, m);
      ReapGoesOn(r, r1, rest, len, l, done, d, budget, n, m);
    }
  }

  /** Owner bits that the NIC flips while frames are being posted neither make room nor take it, and
      the order of the two does not matter. */
  lemma NicCommutes(r: Ring, len: nat, done: nat, skb: Option<Packet>, nextSkb: Option<Packet>)
    requires RingInv(r, len, done) && done < len
    ensures IsFull(NicReturns(r, At(r, done))) == IsFull(r)
    ensures !IsFull(r) ==>
      NicReturns(Post(r, skb, nextSkb), At(r, done)) == Post(NicReturns(r, At(r, done)), skb, nextSkb)
  {
    FreeNumberIsExact(r, len, done);
    assert CellInv(r.cell[At(r, done)], done, len, done);
    if len == |r.cell| {
      assert CellInv(r.cell[At(r, 0)], 0, len, done);
    } else {
      var a := NicReturns(Post(r, skb, nextSkb), At(r, done));
      var b := Post(NicReturns(r, At(r, done)), skb, nextSkb);
      assert a.cell == b.cell;
    }
  }

  // ---- counting packets: `w` gives every packet a weight ----

  ghost function Sum(w: Packet -> int, ps: seq<Packet>): int {
    if ps == [] then 0 else w(ps[0]) + Sum(w, ps[1..])
  }

  lemma {:induction false} SumAppend(w: Packet -> int, ps: seq<Packet>, qs: seq<Packet>)
    ensures Sum(w, ps + qs) == Sum(w, ps) + Sum(w, qs)
  {
    if ps == [] {
      assert ps + qs == qs;
    } else {
      assert (ps + qs)[1..] == ps[1..] + qs;
      SumAppend(w, ps[1..], qs);
    }
  }

  ghost function CellSum(w: Packet -> int, c: Cell): int {
    Sum(w, CellPackets(c))
  }

  ghost function CellsSum(w: Packet -> int, cells: seq<Cell>): int {
    if cells == [] then 0 else CellSum(w, cells[0]) + CellsSum(w, cells[1..])
  }

  lemma {:induction false} CellsSumUpdate(w: Packet -> int, cells: seq<Cell>, j: nat, c: Cell)
    requires j < |cells|
    ensures CellsSum(w, cells[j := c]) == CellsSum(w, cells) - CellSum(w, cells[j]) + CellSum(w, c)
  {
    if j == 0 {
      assert cells[0 := c][1..] == cells[1..];
    } else {
      assert cells[j := c][1..] == cells[1..][j - 1 := c];
      CellsSumUpdate(w, cells[1..], j - 1, c);
    }
  }

  /** What DMA-done takes out of the cells is what it releases, in any ring whatever. */
  lemma {:induction false} ReapConserves(w: Packet -> int, r: Ring, budget: nat)
    requires Bounds(r)
    ensures Bounds(Reap(r, budget).ring) && |Reap(r, budget).ring.cell| == |r.cell|
    ensures CellsSum(w, Reap(r, budget).ring.cell) + Sum(w, Reap(r, budget).released) == CellsSum(w, r.cell)
    decreases budget
  {
    if budget > 0 {
      var c := r.cell[r.nextDone];
      if c.ownedByNic {
      } else if !c.waiting {
        if r.nextDone != r.cur {
          ReapConserves(w, r.(nextDone := Inc(r.nextDone, |r.cell|)), budget - 1);
        }
      } else {
        ReapConserves(w, ReapOne(r), budget - 1);
        SumAppend(w, CellPackets(c), Reap(ReapOne(r), budget - 1).released);
        CellsSumUpdate(w, r.cell, r.nextDone, c.(waiting := false, skb := None, nextSkb := None));
      }
    }
  }

  lemma PostAdds(w: Packet -> int, r: Ring, skb: Option<Packet>)
    requires Bounds(r) && CellPackets(r.cell[r.cur]) == []
    ensures CellsSum(w, Post(r, skb, None).cell) == CellsSum(w, r.cell) + (if skb.Some? then w(skb.value) else 0)
  {
    CellsSumUpdate(w, r.cell, r.cur, Cell(true, true, skb, None));
    if skb.Some? {
      SumOne(w, skb.value);
    }
  }

  lemma SumOne(w: Packet -> int, p: Packet)
    ensures Sum(w, [p]) == w(p)
  {
    assert [p][1..] == [];
  }
}
