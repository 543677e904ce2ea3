/** How RTMPHardTransmit cuts an MSDU into MPDUs, and how RTMPSendPacket estimates their number
    beforehand (Module/rtmp_data.c). Lengths are in octets. */
module Fragment {

  const LENGTH_802_11: nat := 24
  const LENGTH_802_3: nat := 14
  const LENGTH_802_1_H: nat := 8
  const LENGTH_CRC: nat := 4
  const MAX_FRAG_THRESHOLD: nat := 2346

  /** Unsigned 32-bit arithmetic. */
  function U32(x: int): (r: nat)
    ensures r < 0x1_0000_0000
  {
    x % 0x1_0000_0000
  }

  /** `llc`: an LLC/SNAP header has to be inserted. `wmm`: QoS data frames. */
  datatype Config = Config(threshold: nat, multicast: bool, wmm: bool, llc: bool)

  function QosLength(c: Config): nat {
    if c.wmm then 2 else 0
  }

  /** The fragment number is a four-bit header field, and the LLC/SNAP header goes into every MPDU
      whose number is zero. */
  function LlcLength(c: Config, frag: nat): nat {
    if c.llc && frag % 16 == 0 then LENGTH_802_1_H else 0
  }

  function Limit(c: Config): nat {
    if c.multicast then MAX_FRAG_THRESHOLD else c.threshold
  }

  /** FreeMpduSize when the payload starts to be copied: an unsigned subtraction. */
  function FreeMpduSize(c: Config, frag: nat): nat {
    U32(Limit(c) - LENGTH_802_11 - LENGTH_CRC - QosLength(c) - LlcLength(c, frag))
  }

  datatype Mpdu = Mpdu(header: nat, payload: nat, moreFrag: bool)

  function HeaderLength(c: Config, frag: nat): nat {
    LENGTH_802_11 + QosLength(c) + LlcLength(c, frag)
  }

  /** What one turn of the outer loop builds from what remains. */
  function NextMpdu(c: Config, remaining: nat, frag: nat): Mpdu {
    var take := if remaining <= FreeMpduSize(c, frag) then remaining else FreeMpduSize(c, frag);
    Mpdu(HeaderLength(c, frag), take, remaining - take > 0)
  }

  /** The MPDUs built with `room` free descriptors; `complete` is FALSE when the loop ran into a
      full ring. */
  datatype Cut = Cut(mpdus: seq<Mpdu>, complete: bool)

  function CutUp(c: Config, remaining: nat, frag: nat, room: nat): Cut
    decreases room
  {
    if room == 0 then Cut([], false)
    else
      var m := NextMpdu(c, remaining, frag);
      if m.moreFrag then
        var rest := CutUp(c, remaining - m.payload, frag + 1, room - 1);
        Cut([m] + rest.mpdus, rest.complete)
      else Cut([m], true)
  }

  function PayloadSum(ms: seq<Mpdu>): nat {
    if ms == [] then 0 else ms[0].payload + PayloadSum(ms[1..])
  }

  /** What `room` MPDUs can carry, from fragment number `frag` on. */
  function Capacity(c: Config, frag: nat, room: nat): nat
    decreases room
  {
    if room == 0 then 0 else FreeMpduSize(c, frag) + Capacity(c, frag + 1, room - 1)
  }

  /** The loop finishes exactly when the descriptors can carry the payload. Then nothing is lost and
      nothing is sent twice; otherwise every descriptor went out full. */
  lemma {:induction false} CutIsExact(c: Config, remaining: nat, frag: nat, room: nat)
    ensures var cut := CutUp(c, remaining, frag, room);
      && (cut.complete <==> room > 0 && remaining <= Capacity(c, frag, room))
      && (cut.complete ==> cut.mpdus != [] && |cut.mpdus| <= room && PayloadSum(cut.mpdus) == remaining)
      && (!cut.complete ==> |cut.mpdus| == room && PayloadSum(cut.mpdus) == Capacity(c, frag, room))
    decreases room
  {
    if room > 0 {
      var m := NextMpdu(c, remaining, frag);
      if m.moreFrag {
        CutIsExact(c, remaining - m.payload, frag + 1, room - 1);
        assert ([m] + CutUp(c, remaining - m.payload, frag + 1, room - 1).mpdus)[1..]
            == CutUp(c, remaining - m.payload, frag + 1, room - 1).mpdus;
      } else {
        assert PayloadSum([m]) == m.payload + PayloadSum([]);
      }
    }
  }

  /** The More Fragments bit is on every MPDU of the burst but the last. */
  lemma {:induction false} MoreFragAllButLast(c: Config, remaining: nat, frag: nat, room: nat, i: nat)
    requires i < |CutUp(c, remaining, frag, room).mpdus|
    ensures var cut := CutUp(c, remaining, frag, room);
      cut.mpdus[i].moreFrag <==> !(cut.complete && i == |cut.mpdus| - 1)
    decreases room
  {
    var m := NextMpdu(c, remaining, frag);
    if m.moreFrag && i > 0 {
      MoreFragAllButLast(c, remaining - m.payload, frag + 1, room - 1, i - 1);
    } else if m.moreFrag {
      CutIsExact(c, remaining - m.payload, frag + 1, room - 1);
    }
  }

  /** With as few MPDUs as possible: one descriptor less would not have been enough. */
  lemma {:induction false} CutIsTight(c: Config, remaining: nat, frag: nat, room: nat)
    requires CutUp(c, remaining, frag, room).complete
    ensures var n := |CutUp(c, remaining, frag, room).mpdus|;
      n == 1 || remaining > Capacity(c, frag, n - 1)
    decreases room
  {
    var m := NextMpdu(c, remaining, frag);
    if m.moreFrag {
      CutIsTight(c, remaining - m.payload, frag + 1, room - 1);
      CutIsExact(c, remaining - m.payload, frag + 1, room - 1);
    }
  }

  lemma {:induction false} MoreRoomIsEnough(c: Config, remaining: nat, frag: nat, few: nat, many: nat)
    requires few <= many && CutUp(c, remaining, frag, few).complete
    ensures CutUp(c, remaining, frag, many) == CutUp(c, remaining, frag, few)
    decreases few
  {
    var m := NextMpdu(c, remaining, frag);
    if m.moreFrag {
      MoreRoomIsEnough(c, remaining - m.payload, frag + 1, few - 1, many - 1);
    }
  }

  // ---- the threshold ----

  /** The headers leave room under the threshold, so that no subtraction wraps. */
  predicate HeadersFit(c: Config) {
    Limit(c) >= LENGTH_802_11 + LENGTH_CRC + QosLength(c) + LlcLength(c, 0)
  }

  /** Group packets keep to the greatest threshold, others to the one configured; four octets of CRC come
      behind an MPDU. */
  predicate WithinLimit(c: Config, m: Mpdu) {
    m.header + m.payload + 4 <= if c.multicast then 2346 else c.threshold
  }

  /** Every MPDU together with its CRC fits the fragmentation threshold if and only if the headers of
      the first one do: below that the free size wraps round and the payload is not cut at all. */
  lemma EveryMpduFits(c: Config, payload: nat, room: nat)
    requires room > 0 && Limit(c) < 0x1_0000 && payload < 0x1_0000
    ensures HeadersFit(c) <==>
      forall i :: 0 <= i < |CutUp(c, payload, 0, room).mpdus| ==> WithinLimit(c, CutUp(c, payload, 0, room).mpdus[i])
  {
    var cut := CutUp(c, payload, 0, room);
    if HeadersFit(c) {
      forall i | 0 <= i < |cut.mpdus| ensures WithinLimit(c, cut.mpdus[i]) {
        MpduFits(c, payload, 0, room, i);
      }
    } else {
      assert cut.mpdus[0] == NextMpdu(c, payload, 0);
      assert !WithinLimit(c, cut.mpdus[0]);
    }
  }

  lemma {:induction false} MpduFits(c: Config, remaining: nat, frag: nat, room: nat, i: nat)
    requires HeadersFit(c) && Limit(c) < 0x1_0000
    requires i < |CutUp(c, remaining, frag, room).mpdus|
    ensures WithinLimit(c, CutUp(c, remaining, frag, room).mpdus[i])
    decreases room
  {
    var m := NextMpdu(c, remaining, frag);
    if i > 0 {
      MpduFits(c, remaining - m.payload, frag + 1, room - 1, i - 1);
    }
  }

  /** What the i-th MPDU of a packet looks like: its header, with the QoS field under WMM and the LLC/SNAP
      header in every sixteenth; and as much payload as the threshold allows, in all but the last. */
  lemma {:induction false} MpduLooks(c: Config, remaining: nat, frag: nat, room: nat, i: nat)
    requires HeadersFit(c) && Limit(c) < 0x1_0000 && i < |CutUp(c, remaining, frag, room).mpdus|
    ensures var m := CutUp(c, remaining, frag, room).mpdus[i];
      && m.header == 24 + (if c.wmm then 2 else 0) + (if c.llc && (frag + i) % 16 == 0 then 8 else 0)
      && (m.moreFrag ==> m.header + m.payload + 4 == if c.multicast then 2346 else c.threshold)
    decreases room
  {
    if i > 0 {
      var m := NextMpdu(c, remaining, frag);
      MpduLooks(c, remaining - m.payload, frag + 1, room - 1, i - 1);
    }
  }

  // ---- the number of descriptors ----

  /** Sixteen fragments share one LLC/SNAP header. */
  function LlcHeaders(frag: nat, room: nat): nat
    decreases room
  {
    if room == 0 then 0 else (if frag % 16 == 0 then 1 else 0) + LlcHeaders(frag + 1, room - 1)
  }

  lemma {:induction false} LlcHeadersClosed(frag: nat, room: nat)
    ensures LlcHeaders(frag, room) == (frag + room + 15) / 16 - (frag + 15) / 16
    decreases room
  {
    if room > 0 {
      LlcHeadersClosed(frag + 1, room - 1);
    }
  }

  function FullPayload(c: Config): int {
    Limit(c) - LENGTH_802_11 - LENGTH_CRC - QosLength(c)
  }

  lemma {:induction false} CapacityClosed(c: Config, frag: nat, room: nat)
    requires HeadersFit(c) && Limit(c) < 0x1_0000
    ensures Capacity(c, frag, room) == room * FullPayload(c) - (if c.llc then LENGTH_802_1_H * LlcHeaders(frag, room) else 0)
    decreases room
  {
    if room > 0 {
      CapacityClosed(c, frag + 1, room - 1);
      assert room * FullPayload(c) == (room - 1) * FullPayload(c) + FullPayload(c);
    }
  }

  /** NumberOfFrag of RTMPSendPacket for a unicast packet, aggregation not in use. It is kept in an
      octet. */
  function Estimate(threshold: nat, skbLen: nat): nat
    requires U32(threshold - LENGTH_802_11 - LENGTH_CRC) != 0
  {
    (U32(skbLen - LENGTH_802_3 + LENGTH_802_1_H) / U32(threshold - LENGTH_802_11 - LENGTH_CRC) + 1) % 256
  }

  /** The number RTMPSendPacket stamps on a packet; one to a group is not fragmented. */
  function NumberOfFrag(multicast: bool, threshold: nat, skbLen: nat): nat
    requires U32(threshold - LENGTH_802_11 - LENGTH_CRC) != 0
  {
    if multicast then 1 else Estimate(threshold, skbLen)
  }

  /** Which descriptors suffice, for any configuration: `n` of them do if and only if this holds. Under
      a threshold too small for the headers one is enough, for what it carries is not cut. */
  predicate Suffices(c: Config, payload: nat, n: nat) {
    n > 0 &&
    (HeadersFit(c) ==>
       payload + (if c.llc then LENGTH_802_1_H * ((n + 15) / 16) else 0) <= n * FullPayload(c))
  }

  lemma DescriptorsNeeded(c: Config, payload: nat, n: nat)
    requires Limit(c) < 0x1_0000 && (HeadersFit(c) || payload < 0x1_0000)
    ensures CutUp(c, payload, 0, n).complete <==> Suffices(c, payload, n)
  {
    CutIsExact(c, payload, 0, n);
    if HeadersFit(c) {
      CapacityIs(c, n);
    } else if n > 0 {
      FirstTakesAll(c, payload, n);
    }
  }

  lemma CapacityIs(c: Config, n: nat)
    requires HeadersFit(c) && Limit(c) < 0x1_0000
    ensures Capacity(c, 0, n) == n * FullPayload(c) - (if c.llc then LENGTH_802_1_H * ((n + 15) / 16) else 0)
  {
    CapacityClosed(c, 0, n);
    LlcHeadersClosed(0, n);
  }

  lemma FirstTakesAll(c: Config, payload: nat, n: nat)
    requires !HeadersFit(c) && payload < 0x1_0000 && n > 0
    ensures payload <= Capacity(c, 0, n)
  {
    assert FreeMpduSize(c, 0) >= 0xFFFF_0000;
    assert Capacity(c, 0, n) == FreeMpduSize(c, 0) + Capacity(c, 1, n - 1);
  }

  /** A threshold of 30 octets, which does not hold the headers: one MPDU of 140 octets and CRC. */
  lemma OverlongMpdu(c: Config)
    requires c == Config(30, false, false, true)
    ensures !HeadersFit(c) && CutUp(c, 108, 0, 1) == Cut([Mpdu(32, 108, false)], true)
    ensures !WithinLimit(c, Mpdu(32, 108, false))
  {
    assert FreeMpduSize(c, 0) == 0xFFFF_FFFA;
    assert NextMpdu(c, 108, 0) == Mpdu(32, 108, false);
  }

  /** The estimate is enough for every plain unicast packet that needs no more than sixteen
      fragments: WMM off, no TKIP MIC appended, no protection frame in front. */
  lemma EstimateSuffices(c: Config, skbLen: nat)
    requires !c.multicast && !c.wmm && HeadersFit(c)
    requires c.threshold < 0x1_0000 && c.threshold > LENGTH_802_11 + LENGTH_CRC
    requires LENGTH_802_3 <= skbLen < 0x1_0000
    requires skbLen - LENGTH_802_3 + LENGTH_802_1_H < 16 * FullPayload(c)
    ensures CutUp(c, skbLen - LENGTH_802_3, 0, Estimate(c.threshold, skbLen)).complete
  {
    var p, f := skbLen - LENGTH_802_3 + LENGTH_802_1_H, FullPayload(c);
    QuotientBound(p, f, 16);
    EstimateIs(c, skbLen);
    SixteenShare(p / f + 1);
    DescriptorsNeeded(c, skbLen - LENGTH_802_3, p / f + 1);
  }

  /** No word and no octet wraps in the estimate. */
  lemma EstimateIs(c: Config, skbLen: nat)
    requires !c.multicast && !c.wmm && HeadersFit(c)
    requires c.threshold < 0x1_0000 && c.threshold > LENGTH_802_11 + LENGTH_CRC
    requires LENGTH_802_3 <= skbLen < 0x1_0000
    requires (skbLen - LENGTH_802_3 + LENGTH_802_1_H) / FullPayload(c) < 16
    ensures Estimate(c.threshold, skbLen) == (skbLen - LENGTH_802_3 + LENGTH_802_1_H) / FullPayload(c) + 1
  {
  }

  lemma SixteenShare(n: nat)
    requires 1 <= n <= 16
    ensures (n + 15) / 16 == 1
  {
  }

  lemma QuotientBound(p: nat, f: nat, k: nat)
    requires 0 < f && p < k * f
    ensures p / f < k
    ensures p < (p / f + 1) * f
  {
    var q := p / f;
    assert p == q * f + p % f;
    assert (q + 1) * f == q * f + f;
    assert q * f == (q - k) * f + k * f;
    assert q >= k ==> (q - k) * f >= 0;
  }

  /** In general the number stamped is enough exactly when it passes the closed test. `extra` is the
      TKIP MIC that RTMPHardTransmit may append after the estimate was made. */
  lemma EstimateExact(c: Config, skbLen: nat, extra: nat)
    requires Limit(c) < 0x1_0000 && (HeadersFit(c) || skbLen + extra < 0x1_0000)
    requires U32(c.threshold - LENGTH_802_11 - LENGTH_CRC) != 0 && LENGTH_802_3 <= skbLen
    ensures var n := NumberOfFrag(c.multicast, c.threshold, skbLen);
      CutUp(c, skbLen - LENGTH_802_3 + extra, 0, n).complete <==> Suffices(c, skbLen - LENGTH_802_3 + extra, n)
  {
    DescriptorsNeeded(c, skbLen - LENGTH_802_3 + extra, NumberOfFrag(c.multicast, c.threshold, skbLen));
  }

  /** Three cases in which it falls short: the QoS field, an appended MIC, and a seventeenth fragment
      that brings a second LLC/SNAP header. */
  predicate ShortCase(c: Config, skbLen: nat, extra: nat) {
    || (c == Config(256, false, true, true) && skbLen == 233 && extra == 0)
    || (c == Config(256, false, false, true) && skbLen == 461 && extra == 8)
    || (c == Config(64, false, false, true) && skbLen == 617 && extra == 0)
  }

  lemma EstimateFallsShort(c: Config, skbLen: nat, extra: nat)
    requires ShortCase(c, skbLen, extra)
    ensures !CutUp(c, skbLen - LENGTH_802_3 + extra, 0, Estimate(c.threshold, skbLen)).complete
  {
    var n := Estimate(c.threshold, skbLen);
    assert n == if c.wmm then 1 else if c.threshold == 256 then 2 else 17;
    DescriptorsNeeded(c, skbLen - LENGTH_802_3 + extra, n);
    assert !Suffices(c, skbLen - LENGTH_802_3 + extra, n);
  }
}
