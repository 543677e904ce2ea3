/** The transmit path of one access category (Module/rtmp_data.c, Module/rtmp_init.c): the software
    queue, the descriptor ring and the count of packets the protocol layer still waits for. */
module TxPath {
  import opened Fragment
  import opened TxRing

  const MAX_TX_PROCESS: nat := 4

  /** What the rest of the adapter decides while a packet is sent. `clone` is the buffer skb_clone
      returns, if it returns one; `infraOn` the infrastructure flag when the header is made. */
  datatype Env = Env(
    infraOn: bool, injecting: bool, radarSilence: bool, tkip: bool, clone: Option<Packet>, portClosed: bool,
    cipherIsTkip: bool, rtsProtection: bool, ctsProtection: bool, wmm: bool, threshold: nat)

  datatype Status = Success | Failure | Resources

  datatype TxResult = TxResult(ring: Ring, status: Status, released: seq<Packet>)

  function ConfigOf(p: Packet, e: Env): Config {
    Config(e.threshold, p.multicast, e.wmm, p.llc)
  }

  /** A frame without a packet: NULL data, RTS, CTS-to-self. A full ring drops it silently. */
  function PostControl(r: Ring): Ring
    requires Bounds(r)
  {
    if IsFull(r) then r else Post(r, None, None)
  }

  /** Address 1 of the frame is a group address: in infrastructure mode every frame goes to the
      access point, and the group address of its destination is in address 3. */
  predicate ToGroup(p: Packet, e: Env) {
    p.multicast && !e.infraOn
  }

  /** RTMPSendRTSCTSFrame as RTMPHardTransmit calls it: no RTS goes to a group, where nobody would
      answer it. */
  function Protect(r: Ring, p: Packet, e: Env): Ring
    requires Bounds(r)
  {
    if p.rts != 0 || e.rtsProtection then (if ToGroup(p, e) then r else PostControl(r))
    else if e.ctsProtection then PostControl(r)
    else r
  }

  /** Step 5: one descriptor per MPDU, the packet hangs on the last one. */
  function SendMpdus(r: Ring, c: Config, remaining: nat, frag: nat, p: Packet, room: nat): TxResult
    requires Bounds(r)
    decreases room
  {
    if room == 0 then TxResult(r, Resources, [p])
    else
      var m := NextMpdu(c, remaining, frag);
      if m.moreFrag then SendMpdus(Post(r, None, None), c, remaining - m.payload, frag + 1, p, room - 1)
      else TxResult(Post(r, Some(p), None), Success, [])
  }

  predicate NeedsClone(p: Packet, e: Env) {
    p.fromNdis && ((p.frags > 1 && e.tkip) || p.paged)
  }

  /** Octets to be fragmented: the Ethernet header goes, and a TKIP MIC may come. */
  function PayloadOf(p: Packet, e: Env): int {
    p.len - LENGTH_802_3 + (if p.frags > 1 && e.cipherIsTkip then 8 else 0)
  }

  function Room(r: Ring): nat
    requires Bounds(r)
  {
    if FreeNumber(r) < 0 then 0 else FreeNumber(r)
  }

  /** RTMPHardTransmit from the port check on, with the buffer it uses from there. */
  function TransmitBuffer(r: Ring, p: Packet, e: Env): TxResult
    requires Bounds(r) && p.len >= LENGTH_802_3
  {
    if e.portClosed then TxResult(r, Failure, [p])
    else
      var r' := Protect(r, p, e);
      SendMpdus(r', ConfigOf(p, e), PayloadOf(p, e), 0, p, Room(r'))
  }

  /** RTMPHardTransmit, without aggregation. */
  function HardTransmit(r: Ring, p: Packet, e: Env): TxResult
    requires Bounds(r)
  {
    if e.injecting then
      if IsFull(r) then TxResult(r, Resources, [p]) else TxResult(Post(r, Some(p), None), Success, [])
    else if e.radarSilence || p.len < LENGTH_802_3 then TxResult(r, Failure, [p])
    else if NeedsClone(p, e) then
      if e.clone.None? then TxResult(r, Failure, [p])
      else
        var x := TransmitBuffer(r, CloneOf(p, e.clone.value), e);
        x.(released := [p] + x.released)
    else TransmitBuffer(r, p, e)
  }

  /** A clone carries the same octets but belongs to the driver. */
  function CloneOf(p: Packet, clone: Packet): Packet {
    p.(id := clone.id, fromNdis := false)
  }

  // ---- what a transmission does to the ring ----

  ghost predicate Settled(r: Ring, len: nat, done: nat, x: TxResult, used: nat) {
    && len + used <= |r.cell| && |x.ring.cell| == |r.cell|
    && RingInv(x.ring, len + used, done)
  }

  lemma {:induction false} SendMpdusKeeps(r: Ring, len: nat, done: nat,
                                          c: Config, remaining: nat, frag: nat, p: Packet, room: nat)
    requires RingInv(r, len, done) && room == |r.cell| - len
    ensures var cut := CutUp(c, remaining, frag, room);
      && Settled(r, len, done, SendMpdus(r, c, remaining, frag, p, room), |cut.mpdus|)
      && SendMpdus(r, c, remaining, frag, p, room).status == (if cut.complete then Success else Resources)
      && SendMpdus(r, c, remaining, frag, p, room).released == (if cut.complete then [] else [p])
    decreases room
  {
    CutIsExact(c, remaining, frag, room);
    if room > 0 {
      var m := NextMpdu(c, remaining, frag);
      if m.moreFrag {
        PostKeeps(r, len, done, None, None);
        SendMpdusKeeps(Post(r, None, None), len + 1, done, c, remaining - m.payload, frag + 1, p, room - 1);
      } else {
        PostKeeps(r, len, done, Some(p), None);
      }
    }
  }

  lemma PostControlKeeps(r: Ring, len: nat, done: nat)
    requires RingInv(r, len, done)
    ensures RingInv(PostControl(r), if len == |r.cell| then len else len + 1, done)
    ensures |PostControl(r).cell| == |r.cell|
  {
    FreeNumberIsExact(r, len, done);
    if len < |r.cell| {
      PostKeeps(r, len, done, None, None);
    }
  }

  /** How many descriptors a protection frame takes. */
  function ProtectUses(p: Packet, e: Env, free: nat): nat {
    if free == 0 then 0
    else if p.rts != 0 || e.rtsProtection then (if ToGroup(p, e) then 0 else 1)
    else if e.ctsProtection then 1 else 0
  }

  lemma ProtectKeeps(r: Ring, len: nat, done: nat, p: Packet, e: Env)
    requires RingInv(r, len, done)
    ensures len + ProtectUses(p, e, |r.cell| - len) <= |r.cell| && |Protect(r, p, e).cell| == |r.cell|
    ensures RingInv(Protect(r, p, e), len + ProtectUses(p, e, |r.cell| - len), done)
  {
    PostControlKeeps(r, len, done);
  }

  /** The "TX RING full" exit of a buffer is taken exactly when the descriptors left after the
      protection frame cannot carry the payload. */
  lemma TransmitBufferOutcome(r: Ring, len: nat, done: nat, p: Packet, e: Env, left: nat)
    requires RingInv(r, len, done) && p.len >= LENGTH_802_3 && !e.portClosed
    requires left == |r.cell| - len - ProtectUses(p, e, |r.cell| - len)
    ensures TransmitBuffer(r, p, e).status ==
            if CutUp(ConfigOf(p, e), PayloadOf(p, e), 0, left).complete then Success else Resources
    ensures Valid(TransmitBuffer(r, p, e).ring) && |TransmitBuffer(r, p, e).ring.cell| == |r.cell|
  {
    var r' := Protect(r, p, e);
    var len' := len + ProtectUses(p, e, |r.cell| - len);
    ProtectKeeps(r, len, done, p, e);
    FreeNumberIsExact(r', len', done);
    SendMpdusKeeps(r', len', done, ConfigOf(p, e), PayloadOf(p, e), 0, p, left);
  }

  /** The same on lengths alone: the ring-full exit is taken if and only if the closed test fails on the
      descriptors left. */
  lemma RingFullExactlyWhen(r: Ring, len: nat, done: nat, p: Packet, e: Env, left: nat)
    requires RingInv(r, len, done) && p.len >= LENGTH_802_3 && !e.portClosed
    requires left == |r.cell| - len - ProtectUses(p, e, |r.cell| - len)
    requires Limit(ConfigOf(p, e)) < 0x1_0000 && (HeadersFit(ConfigOf(p, e)) || PayloadOf(p, e) < 0x1_0000)
    ensures TransmitBuffer(r, p, e).status.Resources? <==> !Suffices(ConfigOf(p, e), PayloadOf(p, e), left)
  {
    TransmitBufferOutcome(r, len, done, p, e, left);
    DescriptorsNeeded(ConfigOf(p, e), PayloadOf(p, e), left);
  }

  /** The payload and the descriptors for it, as the packet and the circumstances give them. */
  ghost predicate Load(p: Packet, e: Env, free: nat, c: Config, payload: int, left: int) {
    && c == Config(e.threshold, p.multicast, e.wmm, p.llc)
    && payload == p.len - 14 + (if p.frags > 1 && e.cipherIsTkip then 8 else 0)
    && left == free - (if free == 0 then 0
                       else if p.rts != 0 || e.rtsProtection then (if p.multicast && !e.infraOn then 0 else 1)
                       else if e.ctsProtection then 1 else 0)
  }

  lemma BufferGoesOut(r: Ring, len: nat, done: nat, p: Packet, e: Env, c: Config, payload: int, left: nat)
    requires RingInv(r, len, done) && p.len >= LENGTH_802_3 && Load(p, e, |r.cell| - len, c, payload, left)
    requires Limit(c) < 0x1_0000 && (HeadersFit(c) || payload < 0x1_0000)
    ensures TransmitBuffer(r, p, e).status.Success? <==> !e.portClosed && Suffices(c, payload, left)
    ensures TransmitBuffer(r, p, e).status.Failure? <==> e.portClosed
    ensures e.portClosed ==> TransmitBuffer(r, p, e).ring == r
  {
    if !e.portClosed {
      TransmitBufferOutcome(r, len, done, p, e, left);
      DescriptorsNeeded(c, payload, left);
    }
  }

  /** How RTMPHardTransmit ends, on the packet and the circumstances alone. It succeeds exactly when a cell
      is free, for an injected frame; for another, when there is no radar silence, a whole Ethernet header,
      a clone where one is needed, an open port, and descriptors for the payload behind the protection
      frame. What fails for another reason than the ring leaves the ring alone. */
  lemma SendsExactlyWhen(r: Ring, len: nat, done: nat, p: Packet, e: Env, c: Config, payload: int, left: nat)
    requires RingInv(r, len, done) && Load(p, e, |r.cell| - len, c, payload, left)
    requires Limit(c) < 0x1_0000 && (HeadersFit(c) || payload < 0x1_0000)
    ensures HardTransmit(r, p, e).status.Success? <==>
            if e.injecting then len < |r.cell|
            else
              && !e.radarSilence && p.len >= 14 && !e.portClosed
              && (p.fromNdis && ((p.frags > 1 && e.tkip) || p.paged) ==> e.clone.Some?)
              && Suffices(c, payload, left)
    ensures HardTransmit(r, p, e).status.Failure? <==>
            && !e.injecting
            && (e.radarSilence || p.len < 14 || e.portClosed
                || (p.fromNdis && ((p.frags > 1 && e.tkip) || p.paged) && e.clone.None?))
    ensures HardTransmit(r, p, e).status.Failure? ==> HardTransmit(r, p, e).ring == r
  {
    if e.injecting {
      FreeNumberIsExact(r, len, done);
    } else if !e.radarSilence && p.len >= LENGTH_802_3 {
      BufferGoesOut(r, len, done, p, e, c, payload, left);
      if e.clone.Some? {
        BufferGoesOut(r, len, done, CloneOf(p, e.clone.value), e, c, payload, left);
      }
    }
  }

  /** A last free cell that goes to the protection frame leaves none for the packet. */
  lemma ProtectionTakesTheLast(r: Ring, len: nat, done: nat, p: Packet, e: Env)
    requires RingInv(r, len, done) && p.len >= LENGTH_802_3 && !e.portClosed
    requires |r.cell| - len == 1 && ProtectUses(p, e, 1) == 1
    ensures TransmitBuffer(r, p, e).status.Resources? && FreeNumber(r) == 1
  {
    FreeNumberIsExact(r, len, done);
    TransmitBufferOutcome(r, len, done, p, e, 0);
  }

  /** So it goes, in infrastructure mode, for a packet to a group that requires an RTS; without that
      mode the same packet is sent. */
  lemma GroupPacketTakesRts(r: Ring, len: nat, done: nat, p: Packet, e: Env)
    requires RingInv(r, len, done) && |r.cell| - len == 1 && !e.portClosed && !e.wmm && !e.cipherIsTkip
    requires p.multicast && p.len == 600 && p.rts == 1 && !p.llc
    ensures TransmitBuffer(r, p, e).status == if e.infraOn then Resources else Success
  {
    if e.infraOn {
      ProtectionTakesTheLast(r, len, done, p, e);
    } else {
      TransmitBufferOutcome(r, len, done, p, e, 1);
      DescriptorsNeeded(ConfigOf(p, e), PayloadOf(p, e), 1);
    }
  }

  lemma HardTransmitKeeps(r: Ring, len: nat, done: nat, p: Packet, e: Env)
    requires RingInv(r, len, done)
    ensures Valid(HardTransmit(r, p, e).ring) && |HardTransmit(r, p, e).ring.cell| == |r.cell|
  {
    FreeNumberIsExact(r, len, done);
    if e.injecting {
      if len < |r.cell| {
        PostKeeps(r, len, done, Some(p), None);
      }
    } else if p.len >= LENGTH_802_3 && !e.portClosed {
      TransmitBufferOutcome(r, len, done, p, e, |r.cell| - len - ProtectUses(p, e, |r.cell| - len));
      if e.clone.Some? {
        var q := CloneOf(p, e.clone.value);
        TransmitBufferOutcome(r, len, done, q, e, |r.cell| - len - ProtectUses(q, e, |r.cell| - len));
      }
    }
  }

  /** The packet was stamped under the threshold in force now, WMM and TKIP are off and nothing but
      an RTS of its own goes in front of it. */
  predicate Plain(p: Packet, e: Env, rtsThreshold: nat) {
    && !p.multicast && !e.wmm && !e.cipherIsTkip && !e.rtsProtection && !e.ctsProtection
    && LENGTH_802_3 <= p.len < 0x1_0000
    && LENGTH_802_11 + LENGTH_CRC + LENGTH_802_1_H <= e.threshold < 0x1_0000
    && p.len - LENGTH_802_3 + LENGTH_802_1_H < 16 * (e.threshold - LENGTH_802_11 - LENGTH_CRC)
    && p == Stamped(p, e.threshold, rtsThreshold)
  }

  /** No octet wraps in what a plain packet was stamped with, nor in what the pre-check asks for. */
  lemma StampIsExact(p: Packet, e: Env, rtsThreshold: nat)
    requires Plain(p, e, rtsThreshold)
    ensures p.frags == Estimate(e.threshold, p.len) && p.rts <= 1 && MpduRequired(p) == p.frags + p.rts
  {
    EstimateIsSmall(ConfigOf(p, e), p.len);
  }

  /** With the cells the pre-check asks for, those left after an RTS carry the whole payload. */
  lemma EnoughLeft(p: Packet, e: Env, rtsThreshold: nat, free: nat, left: nat)
    requires Plain(p, e, rtsThreshold) && free >= MpduRequired(p) && left == free - ProtectUses(p, e, free)
    ensures CutUp(ConfigOf(p, e), PayloadOf(p, e), 0, left).complete
  {
    var c := ConfigOf(p, e);
    StampIsExact(p, e, rtsThreshold);
    assert left >= p.frags;
    EstimateSuffices(c, p.len);
    MoreRoomIsEnough(c, p.len - LENGTH_802_3, 0, p.frags, left);
  }

  /** Once RTMPDeQueuePacket's pre-check has passed, a plain packet never meets a full ring. */
  lemma PrecheckIsEnough(r: Ring, len: nat, done: nat, p: Packet, e: Env, rtsThreshold: nat)
    requires RingInv(r, len, done) && Plain(p, e, rtsThreshold)
    requires FreeNumber(r) >= MpduRequired(p)
    ensures !HardTransmit(r, p, e).status.Resources?
  {
    FreeNumberIsExact(r, len, done);
    var free := |r.cell| - len;
    var left := free - ProtectUses(p, e, free);
    EnoughLeft(p, e, rtsThreshold, free, left);
    if !e.injecting && !e.portClosed {
      TransmitBufferOutcome(r, len, done, Carrier(p, e), e, left);
    }
  }

  /** With `free` cells the payload goes out whole, whatever the protection frame takes of them. */
  predicate Carried(p: Packet, e: Env, free: nat)
    requires p.len >= LENGTH_802_3
  {
    CutUp(ConfigOf(p, e), PayloadOf(p, e), 0, free - ProtectUses(p, e, free)).complete
  }

  /** The pre-check keeps a packet from the ring-full exit, whatever the ring, if and only if the
      closed test holds of the cells it asks for less the one a protection frame takes. */
  lemma PrecheckExact(p: Packet, e: Env, need: nat, left: nat)
    requires p.len >= LENGTH_802_3 && need == MpduRequired(p) && left == need - ProtectUses(p, e, need)
    requires Limit(ConfigOf(p, e)) < 0x1_0000 && (HeadersFit(ConfigOf(p, e)) || PayloadOf(p, e) < 0x1_0000)
    ensures (forall free: nat :: free >= need ==> Carried(p, e, free)) <==> Suffices(ConfigOf(p, e), PayloadOf(p, e), left)
  {
    DescriptorsNeeded(ConfigOf(p, e), PayloadOf(p, e), left);
    assert Carried(p, e, need) <==> Suffices(ConfigOf(p, e), PayloadOf(p, e), left);
    if Carried(p, e, need) {
      forall free: nat | free >= need ensures Carried(p, e, free) {
        MoreRoomIsEnough(ConfigOf(p, e), PayloadOf(p, e), 0, left, free - ProtectUses(p, e, free));
      }
    }
  }

  lemma EstimateIsSmall(c: Config, skbLen: nat)
    requires HeadersFit(c) && !c.multicast && !c.wmm && LENGTH_802_3 <= skbLen < 0x1_0000
    requires LENGTH_802_11 + LENGTH_CRC < c.threshold < 0x1_0000
    requires skbLen - LENGTH_802_3 + LENGTH_802_1_H < 16 * FullPayload(c)
    ensures 0 < Estimate(c.threshold, skbLen) <= 16
  {
    QuotientBound(skbLen - LENGTH_802_3 + LENGTH_802_1_H, FullPayload(c), 16);
    EstimateIs(c, skbLen);
  }

  // ---- packets: held in a cell or released, never both, never neither ----

  predicate Clones(p: Packet, e: Env) {
    !e.injecting && !e.radarSilence && p.len >= LENGTH_802_3 && NeedsClone(p, e) && e.clone.Some?
  }

  /** The buffer that is really sent: the packet or its clone. */
  function Carrier(p: Packet, e: Env): Packet {
    if Clones(p, e) then CloneOf(p, e.clone.value) else p
  }

  lemma {:induction false} SendMpdusConserves(w: Packet -> int, r: Ring, len: nat, done: nat,
                                              c: Config, remaining: nat, frag: nat, p: Packet, room: nat)
    requires RingInv(r, len, done) && room == |r.cell| - len
    ensures var x := SendMpdus(r, c, remaining, frag, p, room);
      && x.released == (if x.status.Success? then [] else [p])
      && CellsSum(w, x.ring.cell) == CellsSum(w, r.cell) + (if x.status.Success? then w(p) else 0)
    decreases room
  {
    if room > 0 {
      var m := NextMpdu(c, remaining, frag);
      assert CellInv(r.cell[At(r, len)], len, len, done);
      if m.moreFrag {
        PostKeeps(r, len, done, None, None);
        PostAdds(w, r, None);
        SendMpdusConserves(w, Post(r, None, None), len + 1, done, c, remaining - m.payload, frag + 1, p, room - 1);
      } else {
        PostAdds(w, r, Some(p));
      }
    }
  }

  lemma ProtectConserves(w: Packet -> int, r: Ring, len: nat, done: nat, p: Packet, e: Env)
    requires RingInv(r, len, done)
    ensures CellsSum(w, Protect(r, p, e).cell) == CellsSum(w, r.cell)
  {
    FreeNumberIsExact(r, len, done);
    if len < |r.cell| {
      assert CellInv(r.cell[At(r, len)], len, len, done);
      PostAdds(w, r, None);
    }
  }

  lemma TransmitBufferConserves(w: Packet -> int, r: Ring, len: nat, done: nat, p: Packet, e: Env)
    requires RingInv(r, len, done) && p.len >= LENGTH_802_3
    ensures var x := TransmitBuffer(r, p, e);
      && x.released == (if x.status.Success? then [] else [p])
      && CellsSum(w, x.ring.cell) == CellsSum(w, r.cell) + (if x.status.Success? then w(p) else 0)
  {
    if !e.portClosed {
      var r' := Protect(r, p, e);
      var len' := len + ProtectUses(p, e, |r.cell| - len);
      ProtectKeeps(r, len, done, p, e);
      ProtectConserves(w, r, len, done, p, e);
      FreeNumberIsExact(r', len', done);
      var room := Room(r');
      assert room == |r'.cell| - len';
      SendMpdusConserves(w, r', len', done, ConfigOf(p, e), PayloadOf(p, e), 0, p, room);
      assert TransmitBuffer(r, p, e) == SendMpdus(r', ConfigOf(p, e), PayloadOf(p, e), 0, p, room);
    }
  }

  /** For any way `w` of weighing packets: on success one cell more holds the packet or its clone and
      nothing else was released than, if it was cloned, the original; on every failure path the
      packet, and its clone if there is one, is released exactly once and no cell holds it. */
  lemma HardTransmitConserves(w: Packet -> int, r: Ring, len: nat, done: nat, p: Packet, e: Env)
    requires RingInv(r, len, done)
    ensures var x := HardTransmit(r, p, e);
      && x.released == (if Clones(p, e) then [p] else []) + (if x.status.Success? then [] else [Carrier(p, e)])
      && CellsSum(w, x.ring.cell) == CellsSum(w, r.cell) + (if x.status.Success? then w(Carrier(p, e)) else 0)
  {
    FreeNumberIsExact(r, len, done);
    if e.injecting {
      if len < |r.cell| {
        assert CellInv(r.cell[At(r, len)], len, len, done);
        PostAdds(w, r, Some(p));
      }
    } else if p.len >= LENGTH_802_3 && !e.radarSilence {
      TransmitBufferConserves(w, r, len, done, Carrier(p, e), e);
    }
  }

  /** What goes out instead of a packet that is cloned: the clone the kernel returned, with the packet's
      octets and stamps, belonging to the driver. */
  lemma CarrierIs(p: Packet, e: Env)
    requires !e.injecting && !e.radarSilence && p.len >= 14
    ensures var q := Carrier(p, e);
      if p.fromNdis && ((p.frags > 1 && e.tkip) || p.paged) && e.clone.Some?
      then q.id == e.clone.value.id && !q.fromNdis && q == p.(id := q.id, fromNdis := false)
      else q == p
  {
  }

  // ---- the queue in front of the ring ----

  /** `skbNull`: the buffer has no data, RTMPSendPacket gives it back at once. */
  datatype Sent = Sent(queue: seq<Packet>, released: seq<Packet>)

  /** RTMPSendPacket: what it leaves in the control block, and the queue. */
  function SendPacket(q: seq<Packet>, p: Packet, skbNull: bool, threshold: nat, rtsThreshold: nat): Sent
    requires U32(threshold - LENGTH_802_11 - LENGTH_CRC) != 0
  {
    if skbNull then Sent(q, [p]) else Sent(q + [Stamped(p, threshold, rtsThreshold)], [])
  }

  function Stamped(p: Packet, threshold: nat, rtsThreshold: nat): Packet
    requires U32(threshold - LENGTH_802_11 - LENGTH_CRC) != 0
  {
    var n := NumberOfFrag(p.multicast, threshold, p.len);
    p.(frags := n, rts := if (if n > 1 then threshold else p.len) > rtsThreshold then 1 else 0)
  }

  /** What a queued packet was stamped with: one fragment to a group, else one more than whole fragments fill,
      in an octet; and an RTS when what goes out first, a fragment or the packet, exceeds the RTS threshold. */
  lemma QueuedPacketIs(q: seq<Packet>, p: Packet, threshold: nat, rtsThreshold: nat)
    requires 28 < threshold < 0x1_0000 && 14 <= p.len < 0x1_0000
    ensures var s := SendPacket(q, p, false, threshold, rtsThreshold);
      && |s.queue| == |q| + 1 && s.queue[..|q|] == q && s.released == []
      && var x := s.queue[|q|];
         && x == p.(frags := x.frags, rts := x.rts)
         && x.frags == (if p.multicast then 1 else ((p.len - 6) / (threshold - 28) + 1) % 256)
         && x.rts == (if (x.frags > 1 && threshold > rtsThreshold) || (x.frags <= 1 && p.len > rtsThreshold) then 1 else 0)
  {
  }

  /** MpduRequired of RTMPDeQueuePacket, an octet. */
  function MpduRequired(p: Packet): nat {
    (p.frags + p.rts) % 256
  }

  datatype Drain = Drain(queue: seq<Packet>, ring: Ring, released: seq<Packet>, clones: seq<Packet>)

  /** The clone a transmission makes, if it makes one. */
  function Made(p: Packet, e: Env): seq<Packet> {
    if Clones(p, e) then [Carrier(p, e)] else []
  }

  /** RTMPDeQueuePacket: packet k of the round is sent in the circumstances envs[k]. */
  function DeQueue(q: seq<Packet>, r: Ring, envs: seq<Env>): Drain
    requires Bounds(r)
    decreases |envs|
  {
    if envs == [] || q == [] then Drain(q, r, [], [])
    else if FreeNumber(r) < MpduRequired(q[0]) then Drain(q, r, [], [])
    else
      var x := HardTransmit(r, q[0], envs[0]);
      var made := Made(q[0], envs[0]);
      if !x.status.Success? || !Bounds(x.ring) then Drain(q[1..], x.ring, x.released, made)
      else
        var rest := DeQueue(q[1..], x.ring, envs[1..]);
        Drain(rest.queue, rest.ring, x.released + rest.released, made + rest.clones)
  }

  /** Turn i of a round: the pre-check passes and packet i is given to the hardware. */
  ghost predicate TurnAt(q: seq<Packet>, envs: seq<Env>, rs: seq<Ring>, i: nat)
    requires i < |q| && i < |envs| && i + 1 < |rs|
  {
    && Valid(rs[i]) && FreeNumber(rs[i]) >= (q[i].frags + q[i].rts) % 256
    && rs[i + 1] == HardTransmit(rs[i], q[i], envs[i]).ring
    && (i + 2 < |rs| ==> HardTransmit(rs[i], q[i], envs[i]).status.Success?)
  }

  /** Why a round ends after its last turn. */
  ghost predicate Ends(q: seq<Packet>, envs: seq<Env>, rs: seq<Ring>, k: nat)
    requires |rs| == k + 1 && k <= |q| && k <= |envs| && Valid(rs[k])
  {
    || k == |q| || k == |envs|
    || FreeNumber(rs[k]) < (q[k].frags + q[k].rts) % 256
    || (k > 0 && Valid(rs[k - 1]) && !HardTransmit(rs[k - 1], q[k - 1], envs[k - 1]).status.Success?)
  }

  ghost predicate Round(q: seq<Packet>, envs: seq<Env>, rs: seq<Ring>, k: nat) {
    && |rs| == k + 1 && k <= |q| && k <= |envs| && Valid(rs[k])
    && (forall i: nat :: i < k ==> TurnAt(q, envs, rs, i))
    && Ends(q, envs, rs, k)
  }

  /** A successful turn in front of a round. */
  lemma OneMoreTurn(q: seq<Packet>, envs: seq<Env>, r: Ring, ss: seq<Ring>, l: nat)
    requires q != [] && envs != [] && Round(q[1..], envs[1..], ss, l)
    requires Valid(r) && FreeNumber(r) >= (q[0].frags + q[0].rts) % 256
    requires ss[0] == HardTransmit(r, q[0], envs[0]).ring && HardTransmit(r, q[0], envs[0]).status.Success?
    ensures Round(q, envs, [r] + ss, l + 1)
  {
    var rs, k := [r] + ss, l + 1;
    forall i: nat | i < k ensures TurnAt(q, envs, rs, i) {
      if i > 0 {
        assert TurnAt(q[1..], envs[1..], ss, i - 1);
      }
    }
    assert Ends(q[1..], envs[1..], ss, l);
  }

  lemma FirstTurn(q: seq<Packet>, r: Ring, len: nat, done: nat, envs: seq<Env>) returns (x: TxResult, len': nat, done': nat)
    requires RingInv(r, len, done) && q != [] && envs != [] && FreeNumber(r) >= MpduRequired(q[0])
    ensures x == HardTransmit(r, q[0], envs[0]) && RingInv(x.ring, len', done')
    ensures !x.status.Success? ==> DeQueue(q, r, envs).queue == q[1..] && DeQueue(q, r, envs).ring == x.ring
    ensures x.status.Success? ==>
              && DeQueue(q, r, envs).queue == DeQueue(q[1..], x.ring, envs[1..]).queue
              && DeQueue(q, r, envs).ring == DeQueue(q[1..], x.ring, envs[1..]).ring
  {
    x := HardTransmit(r, q[0], envs[0]);
    HardTransmitKeeps(r, len, done, q[0], envs[0]);
    DeQueueTurn(q, r, envs, x.ring);
    len', done' :| RingInv(x.ring, len', done');
  }

  /** A round takes packets from the front, one a turn, each in the ring the turn before left, and goes
      on until packets or turns are used up, a transmission fails, or the pre-check refuses the next
      packet, which is then still at the head. */
  lemma {:induction false} DeQueueRound(q: seq<Packet>, r: Ring, len: nat, done: nat, envs: seq<Env>)
    returns (rs: seq<Ring>, k: nat)
    requires RingInv(r, len, done)
    ensures Round(q, envs, rs, k) && rs[0] == r
    ensures DeQueue(q, r, envs).queue == q[k..] && DeQueue(q, r, envs).ring == rs[k]
    decreases |envs|
  {
    rs, k := [r], 0;
    if envs != [] && q != [] && FreeNumber(r) >= MpduRequired(q[0]) {
      var x, len', done' := FirstTurn(q, r, len, done, envs);
      if x.status.Success? {
        var ss, l := DeQueueRound(q[1..], x.ring, len', done', envs[1..]);
        OneMoreTurn(q, envs, r, ss, l);
        rs, k := [r] + ss, l + 1;
        assert q[1..][l..] == q[k..];
      } else {
        rs, k := [r, x.ring], 1;
      }
    }
  }

  lemma DeQueueTurn(q: seq<Packet>, r: Ring, envs: seq<Env>, r': Ring)
    requires Bounds(r) && q != [] && envs != [] && FreeNumber(r) >= MpduRequired(q[0])
    requires r' == HardTransmit(r, q[0], envs[0]).ring && Bounds(r')
    ensures var x := HardTransmit(r, q[0], envs[0]);
      DeQueue(q, r, envs) ==
        if !x.status.Success? then Drain(q[1..], r', x.released, Made(q[0], envs[0]))
        else
          var rest := DeQueue(q[1..], r', envs[1..]);
          Drain(rest.queue, rest.ring, x.released + rest.released, Made(q[0], envs[0]) + rest.clones)
  {
  }

  lemma {:induction false} DeQueueConserves(w: Packet -> int, q: seq<Packet>, r: Ring, len: nat, done: nat, envs: seq<Env>)
    requires RingInv(r, len, done)
    ensures var d := DeQueue(q, r, envs);
      && Valid(d.ring) && |d.ring.cell| == |r.cell|
      && Sum(w, d.queue) + CellsSum(w, d.ring.cell) + Sum(w, d.released)
           == Sum(w, q) + CellsSum(w, r.cell) + Sum(w, d.clones)
    decreases |envs|
  {
    if envs != [] && q != [] && FreeNumber(r) >= MpduRequired(q[0]) {
      var x := HardTransmit(r, q[0], envs[0]);
      HardTransmitKeeps(r, len, done, q[0], envs[0]);
      HardTransmitConserves(w, r, len, done, q[0], envs[0]);
      SumOne(w, q[0]);
      SumOne(w, Carrier(q[0], envs[0]));
      SumAppend(w, if Clones(q[0], envs[0]) then [q[0]] else [], if x.status.Success? then [] else [Carrier(q[0], envs[0])]);
      var len': nat, done': nat :| RingInv(x.ring, len', done');
      if x.status.Success? {
        var made := Made(q[0], envs[0]);
        var rest := DeQueue(q[1..], x.ring, envs[1..]);
        DeQueueConserves(w, q[1..], x.ring, len', done', envs[1..]);
        SumAppend(w, x.released, rest.released);
        SumAppend(w, made, rest.clones);
      }
    }
  }

  // ---- clean-up ----

  /** RTMPRingCleanUp over the cells from i on. */
  function CleanFrom(cells: seq<Cell>, i: nat): seq<Packet>
    requires i <= |cells|
    decreases |cells| - i
  {
    if i == |cells| then [] else CellPackets(cells[i]) + CleanFrom(cells, i + 1)
  }

  function CleanRing(size: nat): Ring {
    Ring(seq(size, i => CLEAN_CELL), 0, 0)
  }

  lemma {:induction false} CleanUpReleasesAll(w: Packet -> int, cells: seq<Cell>, i: nat)
    requires i <= |cells|
    ensures Sum(w, CleanFrom(cells, i)) == CellsSum(w, cells[i..])
    decreases |cells| - i
  {
    if i < |cells| {
      CleanUpReleasesAll(w, cells, i + 1);
      SumAppend(w, CellPackets(cells[i]), CleanFrom(cells, i + 1));
    }
  }

  lemma CleanRingIsEmpty(w: Packet -> int, size: nat)
    requires 0 < size
    ensures RingInv(CleanRing(size), 0, 0)
    ensures CellsSum(w, CleanRing(size).cell) == 0
  {
    NothingInCleanCells(w, CleanRing(size).cell);
  }

  lemma {:induction false} NothingInCleanCells(w: Packet -> int, cells: seq<Cell>)
    requires forall i :: 0 <= i < |cells| ==> cells[i] == CLEAN_CELL
    ensures CellsSum(w, cells) == 0
  {
    if cells != [] {
      NothingInCleanCells(w, cells[1..]);
    }
  }
}
