# A verified model of the RT61 wireless driver

The driver in `Module/` runs a Ralink RT61 card under Linux. Most of it programs
registers. This project models the parts that hold algorithms and state, and
proves what they promise. Each part has a specification as Dafny functions, a
class or method that updates fields and arrays the way the C code does and is
proved equal to that specification, and theorems about the specification.

**The MLME message queue** (`MlmeQueue`, `MlmeProtocol`). A ring of slots between
any number of producers and one handler. A producer reserves a slot under the
lock, fills it outside the lock one store at a time, and publishes it. The
protocol model lets any thread run between any two of these memory operations.
Whatever the interleaving, messages are dispatched whole, in reservation order,
at most once; at most one thread dispatches; no wakeup is lost; and everything
accepted is eventually dispatched, where its producer calls the handler.

**The transmit path** (`TxRing`, `Fragment`, `TxPath`, `TxAdapter`, `TxLedger`). A
descriptor ring shared with the NIC, the loop that cuts a packet into fragments,
the estimate that precedes it, and the ownership of packets. The ring's free
count is exact, the cut loses nothing, the estimate suffices exactly when a
closed test says so, and over whole runs every packet is held once or released
once, with the pending counter exact.

**Connecting** (`Connect`, `ConnectCauses`, `Auth`, `ConnectSystem`, `ConnectWorst`,
`ConnectLoop`). The control machine, the authentication machine with its timer, and
both together with the message queue. Every call and every request has its exact
causes. An infrastructure link comes up only after join,
authentication and association at one candidate; the authentication machine
wedges only when the timer callback's enqueue fails; and every connection attempt
ends within 5n+2 confirmations, a bound that is reached, except under an exact
condition under which it can go on for ever.

**Cryptographic code.** MD5 and SHA-1 contexts fed in pieces equal the digests of
RFC 1321 and RFC 3174 (`Md5Block`, `Md5`, `Sha1`, on `Streaming` and `Words`), HMAC
and PBKDF2 on top (`Hmac`). AES decryption with merged table rounds and a
transformed schedule equals the inverse cipher of FIPS 197 and inverts the
cipher (`RoundCipher`, `KeyWalk`, `AesSpec`, `AesTables`, `Aes`). Michael byte by
byte equals the word-wise definition of section 8.3.2.3 of IEEE 802.11i-2004
(`Michael`), and the transmit sequence counter never repeats an initialisation
vector early (`Tsc`).

**Tables and rates.** The scan table with hidden names (`BssTable`), the
duplicate-frame cache against the full history (`TupleCache`), rate adaptation
(`RateControl`) and the PLCP LENGTH field (`Plcp`).

`Modular` and `Sequences` hold facts the others share. Sizes the source fixes by a
constant (queue length, ring size, scan table, duplicate cache) are parameters,
so the results hold for every size.

## Where the code does not do what it is meant to do

The model follows the code. In these cases the intended property is false of
it. The exact condition is proved instead, and an input or a run that meets it is
given.

- A packet may need more descriptors than `RTMPSendPacket` estimates: with WMM,
  with a TKIP MIC appended, or from the seventeenth fragment on, where the 4-bit
  fragment number is zero again and a second LLC/SNAP header goes in
  (`Fragment.EstimateExact`, `Fragment.EstimateFallsShort`).
- An MPDU exceeds the threshold exactly when the threshold is too small for the
  headers, because the free size is unsigned (`Fragment.EveryMpduFits`,
  `Fragment.OverlongMpdu`). `rtmp_info.c:2299` accepts any threshold.
- The pre-check counts the RTS stamped on the packet but not a protection frame
  the adapter adds, and infrastructure mode sends an RTS for group packets too
  (`TxPath.PrecheckExact`, `TxPath.ProtectionTakesTheLast`,
  `TxPath.GroupPacketTakesRts`).
- A message published without a call of `MlmeHandler` (`rtmp_data.c:3755`,
  `mlme.c:2347`) waits for the next call (`MlmeProtocol.QuiescentIsEmpty`,
  `MlmeProtocol.MessageIsLeftWaiting`, `MlmeProtocol.NextCallDrains`).
- With `bBlockAssoc` set, automatic authentication mode and shared key recorded,
  an attempt on any candidate can repeat for as long as the block lasts: the
  block is tested before `Alg` is recorded (`ConnectLoop.NeverEndsExactlyWhen`,
  `ConnectLoop.BlockedAttemptNeverEnds`).
- The authentication machine waits for ever when the timer callback cannot
  enqueue (`Auth.WedgesExactlyWhen`, `Auth.WedgeIsReachable`).
- An authentication may succeed with a station other than the one asked, when
  `MlmeAux.Bssid` is rewritten meanwhile (`Auth.SuccessNeedsTheExchange`,
  `Auth.AnotherMayAnswer`).
- `RTMPTkipCompareMICValue` always takes priority zero
  (`Michael.AcceptedExactlyAtPriorityZero`).
- `hmac_sha1` overwrites the caller's key when it is longer than a block
  (`Hmac.HmacSha1`).
- `MlmeUpdateTxRates` falls to 11 Mbps below -75 dBm even in an OFDM-only
  configuration (`RateControl.UpdateFallsToCckExactly`, `RateControl.UpdateFalls`);
  the quick response can exceed the maximum rate (`RateControl.QuickKeepsExactly`,
  `RateControl.QuickExceedsTheMaximum`); the tuner can raise the rate on a bad
  history (`RateControl.RaisesExactlyWhen`, `RateControl.RaisedByBadHistory`).
- A hidden network that is new goes by the name left in its table place, so that
  it may be entered a second time when it shows its own
  (`BssTable.HiddenTakesLeftoverName`, `BssTable.EnteredTwice`,
  `BssTable.LeftoverNameIsReachable`, `BssTable.EvictedNameIsReachable`).

## Model

| member | source | states |
|---|---|---|
| MlmeProtocol.DispatchInReservationOrder | Module/mlme.c:4950-5019 | On every interleaving of any number of threads the k-th message dispatched is the k-th message for which a slot was reserved, with exactly the body its producer passed: reservation order, at most once, never half-filled. |
| MlmeProtocol.StableDuringAction | Module/mlme.c:5683-5721 | While an action runs, whatever the other threads do, its slot stays at Head, stays Occupied and keeps the message the action was called for. |
| MlmeProtocol.OneHandler | Module/mlme.c:5674-5681 | Two threads inside the dispatch loop are one thread, and Running is set while there is one. |
| MlmeProtocol.WindowOfSlots | Module/mlme.c:4978-4996 | Tail is (Head + Num) mod capacity, Num never exceeds the capacity, and only slots in that window are ever Occupied. |
| MlmeProtocol.ReservesExactlyWhen | Module/mlme.c:4978-4996 | On any interleaving: a producer gets a slot if and only if its message has at most 2048 octets and the ring is not full; it is the slot behind those in use, and the reservation is the last one. |
| MlmeProtocol.NoLostWakeup | Module/mlme.c:5097-5126 | Whenever the lock is free, Running is FALSE and the head is Occupied, the very thread that published the head has not yet entered MlmeHandler, or is a producer that never calls it. |
| MlmeProtocol.QuiescentIsEmpty | Module/mlme.c:5649-5733 | When all threads are idle, Running is FALSE and what was dispatched is a prefix, in order; messages wait only behind one whose producer called no handler, and none waits if all producers call it. |
| MlmeProtocol.MessageIsLeftWaiting | Module/mlme.c:2347-2348 | A run in which a producer of that kind leaves a published message in the queue with nobody about to look at it. |
| MlmeProtocol.NextCallDrains | Module/mlme.c:5649-5733 | One later call of MlmeHandler by any thread, run to its end on any schedule, dispatches everything left waiting, in order. |
| MlmeProtocol.ActionFindsRunning | Module/mlme.c:5676-5681 | An action that enqueues and calls MlmeHandler finds Running set and the lock free, so the nested call returns and the dispatch is not entered twice. |
| MlmeProtocol.SomebodyCanMove | Module/mlme.c:5649-5733 | No deadlock: unless all threads are idle some thread in the middle of an operation has an enabled step. |
| MlmeProtocol.WorkShrinks | Module/mlme.c:5683-5727 | Every step that finishes something already begun lowers one measure over messages not yet dispatched and thread positions. |
| MlmeProtocol.FinishingIsBounded | Module/mlme.c:5683-5727 | However the scheduler picks, finishing takes at most as many steps as that measure says. |
| MlmeProtocol.EverythingGetsDispatched | Module/mlme.c:5649-5733 | A finishing run that cannot be extended ends with every accepted message dispatched, or with messages behind one whose producer called no handler. |
| MlmeQueue.EnqueueAppends | Module/mlme.c:4978-5019 | Seen from the handler, an enqueue without interleaving appends exactly its message to what a drain of the queue delivers. |
| MlmeQueue.DrainedLeaves | Module/mlme.c:5683-5727 | A drain moves Head on by the number of messages delivered, clears the Occupied flag of exactly their slots, and touches nothing else. |
| MlmeQueue.Mlme.ReserveSlot | Module/mlme.c:4978-4996 | FALSE exactly on a full queue; otherwise the old Tail is the slot, Tail wraps at the capacity and Num grows. |
| MlmeQueue.Mlme.Fill | Module/mlme.c:5010-5014 | The stores into the reserved slot, field by field and byte by byte, touch that slot only. |
| MlmeQueue.Mlme.Publish | Module/mlme.c:5017 | Sets Occupied on that slot and changes nothing else. |
| MlmeQueue.Mlme.MlmeEnqueue | Module/mlme.c:4950-5022 | Accepts if and only if the adapter is not halting, the body has at most 2048 octets and the queue is not full; what is accepted is the next message a drain delivers after those waiting, and a refusal leaves the queue as it was. |
| MlmeQueue.Mlme.HeadIsReady | Module/mlme.c:5137-5145 | MlmeGetHead with the Occupied test: TRUE exactly when a published message is at Head. |
| MlmeQueue.Mlme.MlmeDequeue | Module/mlme.c:5154-5164 | FALSE exactly on an empty queue; otherwise Head moves on by one around the ring. |
| MlmeQueue.Mlme.MlmeHandler | Module/mlme.c:5649-5733 | Without interleaving, hands the machines exactly the published messages from Head up to the first bubble, in order; does nothing when Running is set. |
| TxRing.FreeNumberIsExact | Module/rtmp_data.c:2428-2448 | In a consistent ring the waiting cells are exactly the circular segment from NextTxDmaDoneIndex up to CurTxIndex, and the computed free number is the ring size minus its length, full and empty included. |
| TxRing.PostKeeps | Module/rtmp_data.c:4103-4104 | Writing a descriptor at CurTxIndex and advancing the index lengthens that segment by one. |
| TxRing.NicKeeps | Module/rtmp_data.c:1602-1603 | The NIC giving back the oldest descriptor it owns keeps the ring consistent. |
| TxRing.ReapOneKeeps | Module/rtmp_data.c:1636-1648 | Clearing the oldest finished cell shortens the segment by one at its old end. |
| TxRing.ReapIsExact | Module/rtmp_data.c:1570-1654 | DMA-done frees exactly the finished cells, oldest first, up to its turn limit, releases exactly their packets in that order, and never takes the branch marked as one it should never reach. |
| TxRing.NicCommutes | Module/rtmp_data.c:2428-2448 | An Owner bit flipped by the NIC in the middle of a send neither makes room nor takes it: the two orders give the same ring. |
| TxRing.ReapConserves | Module/rtmp_data.c:1636-1648 | In any ring, consistent or not, what DMA-done takes out of the cells is, packet by packet, what it releases. |
| TxAdapter.TxAdapter.constructor | Module/rtmp_init.c:613-644 | A fresh ring: all cells clean, both indices zero, empty queue, count zero. |
| TxAdapter.TxAdapter.FreeTXDRequest | Module/rtmp_data.c:2407-2488 | Succeeds exactly when at least the required number of cells is free, and reports the exact free number. |
| TxAdapter.TxAdapter.WriteTxd | Module/rtmp_data.c:4103-4104 | Fills the cell at CurTxIndex and advances it with wrap-around; the packet hangs on that cell. |
| TxAdapter.TxAdapter.SendControl | Module/rtmp_data.c:2635-2775 | RTS, CTS-to-self and null frames take one cell without a packet, or nothing on a full ring. |
| TxAdapter.TxAdapter.NicReturnsOldest | Module/rtmp_data.c:1602-1603 | The environment step: the oldest descriptor the NIC owns becomes finished, and the ring stays consistent. |
| TxAdapter.TxAdapter.ReapCells | Module/rtmp_data.c:1588-1653 | The loop as specified, and the pending count falls by exactly the protocol-layer packets released. |
| TxAdapter.TxAdapter.DmaDone | Module/rtmp_data.c:1570-1654 | From a consistent ring: releases exactly the packets of the finished cells, skips nothing, leaves a consistent ring with none finished. |
| TxAdapter.TxAdapter.CleanCells | Module/rtmp_init.c:1777-1817 | Walks all cells, releases what each holds once, and leaves every cell clean. |
| TxAdapter.TxAdapter.RingCleanUp | Module/rtmp_init.c:1742-1832 | Afterwards ring and queue are empty, and exactly their packets were released and counted down. |
| Fragment.CutIsExact | Module/rtmp_data.c:3384-3654 | The fragment loop finishes if and only if the free descriptors can carry the payload; then the payload lengths add up to the MSDU, otherwise every descriptor went out full. |
| Fragment.MoreFragAllButLast | Module/rtmp_data.c:3634-3654 | MoreFrag is set on an MPDU if and only if it is not the last of a finished cut. |
| Fragment.CutIsTight | Module/rtmp_data.c:3542-3629 | The cut uses as few MPDUs as possible: one descriptor fewer would not have carried the payload. |
| Fragment.MoreRoomIsEnough | Module/rtmp_data.c:3400-3420 | More free descriptors never change a finished cut. |
| Fragment.EveryMpduFits | Module/rtmp_data.c:3466-3518 | Every MPDU with its CRC fits the threshold if and only if the headers of the first one do; below that the unsigned size wraps round and an over-long MPDU goes out. |
| Fragment.MpduLooks | Module/rtmp_data.c:3404-3518 | Header of every MPDU: 24 octets, 2 for QoS, 8 for LLC/SNAP in every sixteenth; and every MPDU but the last of a cut fills the threshold (2346 for group packets) to the octet. |
| Fragment.OverlongMpdu | Module/rtmp_data.c:3481-3509 | A threshold of 30 octets, with which an MPDU of 140 octets and its CRC goes out. |
| Fragment.DescriptorsNeeded | Module/rtmp_data.c:3466-3518 | A closed test for how many descriptors suffice, for any configuration: n do if and only if the payload and one LLC/SNAP header per sixteen fragments fit n MPDUs; under a threshold too small for the headers, one does. |
| Fragment.EstimateSuffices | Module/rtmp_data.c:2302-2307 | The pre-check's estimate is enough for every plain unicast packet of at most sixteen fragments (WMM off, no appended MIC). |
| Fragment.EstimateExact | Module/rtmp_data.c:2285-2307 | In general the number stamped (one for a group packet, else the estimate in an octet) is enough if and only if it passes that closed test, an appended MIC included. |
| Fragment.EstimateFallsShort | Module/rtmp_data.c:2290-2307 | Three concrete cases in which it is not enough: a QoS field, an appended MIC, a seventeenth fragment with its second LLC/SNAP header. |
| TxPath.TransmitBufferOutcome | Module/rtmp_data.c:3307-3654 | Success or the ring-full exit is decided by the cut with the cells left after the protection frame, and the ring stays consistent either way. |
| TxPath.RingFullExactlyWhen | Module/rtmp_data.c:3400-3420 | The "TX RING full" exit is taken if and only if the closed test fails on the cells left after the protection frame. |
| TxPath.HardTransmitKeeps | Module/rtmp_data.c:2876-3765 | Whatever exit is taken, the ring is consistent afterwards. |
| TxPath.SendsExactlyWhen | Module/rtmp_data.c:2876-3420 | Success, on packet and circumstances alone: injected, if and only if a cell is free; otherwise if and only if no radar silence, 14 octets, a clone where one is needed, an open port, and descriptors for the payload behind the protection frame. Failure is exactly the other refusals, and leaves the ring as it was. |
| TxPath.CarrierIs | Module/rtmp_data.c:3086-3122 | What goes out instead of a cloned packet is the clone the kernel returned, with the packet's octets and stamps, as the driver's own; otherwise it is the packet. |
| TxPath.PrecheckIsEnough | Module/rtmp_data.c:3811-3821 | After RTMPDeQueuePacket's pre-check a plain packet never meets the "TX RING full" exit. |
| TxPath.PrecheckExact | Module/rtmp_data.c:3811-3821 | For any packet in any circumstances: passing the pre-check always leaves cells enough if and only if the closed test holds of the fragments and RTS stamped less the cell a protection frame takes. |
| TxPath.ProtectionTakesTheLast | Module/rtmp_data.c:3341-3356 | A packet that meets one free cell and needs a protection frame puts that frame there and leaves through the ring-full exit. |
| TxPath.GroupPacketTakesRts | Module/rtmp.h:529-537 | With one free cell a group packet of 600 octets that requires an RTS meets that exit in infrastructure mode, where address 1 is the access point's, and is sent in the other mode. |
| TxPath.HardTransmitConserves | Module/rtmp_data.c:2876-3765 | The packet or its clone hangs on exactly one cell, or was released exactly once; a cloned original is released exactly once. |
| TxPath.DeQueueConserves | Module/rtmp_data.c:3787-3841 | Over one call, queue, cells and released packets weigh what queue, cells and new clones weighed, for any weighing of packets. |
| TxPath.DeQueueRound | Module/rtmp_data.c:3787-3841 | What leaves the queue is a prefix, one packet a turn, each in the ring the turn before left; the round ends exactly when packets or turns are used up, a transmission fails or the pre-check refuses, and then the refused packet is back at the head. |
| TxPath.QueuedPacketIs | Module/rtmp_data.c:2263-2386 | A queued packet is last in the queue and unchanged but for its stamps: the number of fragments, and an RTS if and only if what goes out first exceeds the RTS threshold. |
| TxPath.CleanUpReleasesAll | Module/rtmp_init.c:1777-1810 | Clean-up releases what the cells hold, each packet once. |
| TxAdapter.TxAdapter.SendBuffer | Module/rtmp_data.c:3384-3765 | The do/while over the remaining octets, against the specified descriptor sequence: status, ring and released packets. |
| TxAdapter.TxAdapter.TransmitBuffer | Module/rtmp_data.c:3176-3765 | From the port check on: refusal on a closed port, protection frame, then the loop, in place, as the ring functions of SendsExactlyWhen give them. |
| TxAdapter.TxAdapter.Inject | Module/rtmp_data.c:2930-2991 | The monitor-mode path: one cell for the frame, or one release on a full ring. |
| TxAdapter.TxAdapter.HardTransmit | Module/rtmp_data.c:2876-3765 | All exits of the routine leave ring, status and released packets as specified, and PendingNdisPacketCount falls by exactly the released protocol-layer packets. |
| TxAdapter.TxAdapter.SendPacket | Module/rtmp_data.c:2263-2386 | Stamps fragments and RTS and appends to the software queue, or releases a packet without data. |
| TxAdapter.TxAdapter.DeQueuePacket | Module/rtmp_data.c:3787-3841 | At most MAX_TX_PROCESS transmissions; stops on an empty queue, too few descriptors (the packet goes back to the head) or a failed transmission. |
| TxLedger.StepConserves | Module/rtmp_data.c:1636-1648 | Each step of send, DMA-done, NIC, control frame or clean-up changes one access category and accounts for every packet that leaves or enters it. |
| TxLedger.SubmitConserves | Module/rtmp_main.c:354-360 | A submitted packet is counted and queued once, or counted, released and counted back. |
| TxLedger.NothingLostNothingTwice | Module/rtmp_data.c:2875-3841 | On every run over any number of categories: packets taken in plus clones made equal packets held plus packets released, under every weighing. |
| TxLedger.HeldOrReleasedOnce | Module/rtmp.h:646-655 | A packet that came in once is at any time either held in one place and not released, or released once and held nowhere. |
| TxLedger.PendingCountIsExact | Module/rtmp_main.c:354-360 | PendingNdisPacketCount always equals the number of protocol-layer packets in the software queues and on the ring cells. |
| Connect.NeverBothLinks | Module/connect.c:1139-1145 | On every run INFRA_ON and ADHOC_ON are never both set, and CNTL_WAIT_REASSOC is never entered. |
| Connect.FlagsTellTheLastLinkEvent | Module/connect.c:1139-1145 | The two flags always say exactly what the last link event was. |
| Connect.LinkUpNeedsJoinAuthAssoc | Module/connect.c:748-971 | An infrastructure link comes up only on an association success after an authentication success after a join success, all at one unchanged BssIdx, whatever SSID, BSSID or scan requests, forced states and link losses the run contains. |
| Connect.JoinsTheCurrentCandidate | Module/connect.c:177-263 | Every awaited join is the one last asked for, of the current candidate, which is in the table. |
| ConnectCauses.JoinAskedExactlyWhen | Module/connect.c:177-263 | A join is asked for if and only if an attempt begins that has a candidate (the first one), or a candidate was given up and there is a next one (that one). |
| ConnectCauses.CandidateFollows | Module/connect.c:309-355 | With the join the index is that candidate's, and the table is the new attempt's or the old one. |
| ConnectCauses.CandidatesCounted | Module/connect.c:447-620 | How many candidates there are is set by an SSID, a found BSSID and roaming at idle, and by no other message. |
| ConnectCauses.StartAskedExactlyWhen | Module/connect.c:200-263 | An IBSS is started if and only if an attempt has no candidate (left) and the user wants an IBSS. |
| ConnectCauses.AuthAskedExactlyWhen | Module/connect.c:748-943 | Which algorithm is asked for and when: shared key first in shared-key and automatic mode, open system first in the others, once more after a first refusal, open system after shared key in automatic mode. |
| ConnectCauses.AssocAskedExactlyWhen | Module/connect.c:845-943 | Association is asked for if and only if an authentication succeeded. |
| ConnectCauses.DisassocAskedExactlyWhen | Module/connect.c:480-741 | If and only if a named network is another one than the infrastructure link's, or its own link is unsecured or reconfigured, or the user disassociates at idle. |
| ConnectCauses.ScanAskedExactlyWhen | Module/connect.c:397-587 | If and only if the user asks, or a wanted infrastructure network is not in the scan table and a scan is allowed. |
| ConnectCauses.ReassocAskedExactlyWhen | Module/connect.c:978-1003 | Only on a refused reassociation, of the next roaming candidate. |
| ConnectCauses.LinkUpExactlyWhen | Module/connect.c:748-1003 | An infrastructure link comes up if and only if an association succeeded; an IBSS link if and only if one was started or an existing one joined. |
| ConnectCauses.LinkDownExactlyWhen | Module/connect.c:328-741 | If and only if an IBSS is left for another network or a disassociation is confirmed. |
| ConnectCauses.StateFollows | Module/connect.c:1023-1096 | One request at most goes out for a message, and the state is the one that waits for its answer. |
| ConnectCauses.SilenceFollows | Module/connect.c:1023-1096 | Without a request the machine is idle after an awaited confirmation or a user's request and unmoved by anything else. |
| ConnectCauses.MarksOfLinkUp | Module/connect.c:1129-1320 | Connected, configuration and port marks after a link event up. |
| ConnectCauses.MarksOfLinkDown | Module/connect.c:1326-1372 | The same after a link event down. |
| ConnectCauses.MarksOtherwise | Module/connect.c:361-395 | Without a link event nothing of the link changes, but a pending request is dropped when the radio is off. |
| ConnectCauses.SettingsKept | Module/connect.c:447-620 | No message changes settings or algorithm; naming a network takes over the wanted kind of network. |
| Connect.Cntl.IterateOnBssTab | Module/connect.c:177-263 | Joins the current candidate; with none left starts an IBSS or goes idle. |
| Connect.Cntl.IterateOnBssTab2 | Module/connect.c:266-299 | The roaming counterpart. |
| Connect.Cntl.CntlWaitDisassocProc | Module/connect.c:328-354 | The specified state and calls, branch by branch. |
| Connect.Cntl.CntlIdleProc | Module/connect.c:361-395 | The specified state and calls, branch by branch. |
| Connect.Cntl.CntlOidSsidProc | Module/connect.c:447-587 | The specified state and calls for an SSID request in any state. |
| Connect.Cntl.CntlOidRTBssidProc | Module/connect.c:594-741 | The specified state and calls for a BSSID request in any state. |
| Connect.Cntl.CntlWaitJoinProc | Module/connect.c:748-799 | The specified state and calls: IBSS link up, authentication request, or the next candidate. |
| Connect.Cntl.CntlWaitStartProc | Module/connect.c:806-838 | The specified state and calls. |
| Connect.Cntl.CntlWaitAuthProc | Module/connect.c:845-890 | The specified state and calls: associate, or authenticate once more. |
| Connect.Cntl.CntlWaitAuthProc2 | Module/connect.c:897-943 | The specified state and calls: associate, fall back to open system, or the next candidate. |
| Connect.Cntl.CntlWaitAssocProc | Module/connect.c:950-971 | The specified state and calls: link up, or the next candidate. |
| Connect.Cntl.CntlWaitReassocProc | Module/connect.c:978-1003 | The specified state and calls. |
| Connect.Cntl.MlmeCntlMachinePerformAction | Module/connect.c:1023-1096 | Dispatches to the handlers exactly as the step function of the runs does. |
| Connect.Cntl.DoLinkUp | Module/connect.c:1139-1145 | Sets one link flag, clears the other. |
| Connect.Cntl.DoLinkDown | Module/connect.c:1326-1372 | Drops the IBSS if there is one, else the infrastructure link. |
| Auth.NeverWedges | Module/auth.c:93-178 | While the callback's enqueues succeed, a waiting machine always has its timer pending, its callback running or a timeout queued. |
| Auth.WedgesExactlyWhen | Module/auth.c:93-106 | A step wedges the machine if and only if it is the callback's failed enqueue, of a waiting machine with no other timeout on its way. |
| Auth.WedgeIsReachable | Module/auth.c:93-106 | A run from the start that ends wedged: request, expiry, refused enqueue. |
| Auth.WedgedStays | Module/auth.c:43-52 | Nothing but a matching frame or another request frees a wedged machine. |
| Auth.EveryRequestAccountedFor | Module/auth.c:43-52 | On every run: requests handled equal confirmations sent plus overriding requests plus one if the machine is waiting. |
| Auth.TimerAlwaysAnswers | Module/auth.c:78-106 | With no help from the peer a waiting machine that is not wedged confirms and is idle after at most three steps. |
| Auth.SuccessNeedsTheExchange | Module/auth.c:185-343 | Success is confirmed only at the end of a whole exchange for one request: two messages for open system, four for shared key, each answer from the address MlmeAux.Bssid was last set to since that request. |
| Auth.SuccessFromTheAddressAsked | Module/auth.c:185-343 | So the answering station is the one asked, whenever nobody else wrote another MlmeAux.Bssid in between. |
| Auth.ConfirmsExactlyWhen | Module/auth.c:43-343 | Which status is confirmed and when, for every status: a frame that ends an exchange is confirmed with its own, a timeout, an override, a block, an insane request and a failed allocation with theirs, and nothing else confirms. |
| Auth.TransmitsExactlyWhen | Module/auth.c:112-307 | The first frame goes out if and only if an acceptable request meets an idle machine, the third if and only if the second of a shared-key exchange succeeded. |
| Auth.MachineFollows | Module/auth.c:112-343 | After a frame the machine waits for its answer with the timer armed; after a confirmation it is idle; otherwise nothing moves. |
| Auth.ConfirmationStopsTimer | Module/auth.c:112-343 | Which confirmations leave the timer pending, and what is recorded of the request. |
| Auth.SharedKeyCanSucceed | Module/auth.c:185-343 | A run of a whole shared-key exchange, confirmed with success. |
| Auth.AnotherMayAnswer | Module/auth.c:185-307 | Otherwise it need not be: a run in which a request to one address is confirmed on the answer of another, for any two addresses. |
| Auth.AuthMachine.MlmeAuthReqAction | Module/auth.c:112-178 | The specified machine, timer and messages; the timer is never armed while pending. |
| Auth.AuthMachine.PeerAuthRspAtSeq2Action | Module/auth.c:185-307 | The specified machine, timer and messages, branch by branch. |
| Auth.AuthMachine.PeerAuthRspAtSeq4Action | Module/auth.c:314-343 | The specified machine, timer and messages. |
| Auth.AuthMachine.AuthTimeoutAction | Module/auth.c:78-86 | Confirms a timeout and goes idle. |
| Auth.AuthMachine.InvalidStateWhenAuth | Module/auth.c:43-52 | Rejects the overriding request and goes idle. |
| Auth.AuthMachine.PerformRequest | Module/auth.c:427-458 | The transition table row of the request. |
| Auth.AuthMachine.PerformPeer | Module/auth.c:427-458 | The transition table row of a received frame. |
| Auth.AuthMachine.PerformTimeout | Module/auth.c:427-458 | The transition table row of the timeout: nothing when idle. |
| ConnectSystem.EveryAttemptEnds | Module/connect.c:177-263 | Control machine, authentication machine, timer and queue together, for an SSID, a BSSID or roaming: an attempt over n candidates handles at most 5n+2 confirmations, takes boundedly many steps apart from arriving frames, and a run that cannot go on is back at CNTL_IDLE, unless a candidate is tried in the one blocked configuration. |
| ConnectLoop.NeverEndsExactlyWhen | Module/connect.c:448-741 | From any state at rest, leftovers in the queue and running timers included: an infinite run without frames that never reaches idle exists if and only if association is blocked in automatic mode with shared key recorded, there is a candidate and the present link is not to be kept. |
| ConnectSystem.StepProgress | Module/connect.c:845-943 | One message is outstanding at any time, and every step lowers the lexicographic measure on remaining candidates, phase and algorithm. |
| ConnectSystem.NeverStuck | Module/connect.c:748-971 | While the control machine is not idle, some step other than a frame's arrival is enabled. |
| ConnectSystem.AttemptCanSucceed | Module/connect.c:748-971 | From rest, for an SSID, a BSSID or roaming, any present link and any authentication mode: if a candidate is tried, some run of both machines, with two or four authentication frames, ends idle with INFRA_ON. |
| ConnectWorst.OneCandidate | Module/connect.c:748-971 | One candidate can cost five confirmations: join, shared key refused twice, open system accepted, association refused. |
| ConnectWorst.BoundIsReached | Module/connect.c:177-263 | The bound is sharp: for every n some attempt over n candidates handles exactly 5n+2 confirmations and then is idle. |
| ConnectLoop.BlockedAttemptNeverEnds | Module/auth.c:122-128 | With bBlockAssoc, automatic mode and shared key recorded, the refused request is asked again for ever: an infinite run that never reaches idle. |
| ConnectLoop.BlockedAttemptReaches | Module/auth.c:122-128 | One successful join is enough to get into that repetition, whatever timer still runs. |
| ConnectLoop.RequestReaches | Module/connect.c:524-587 | A request at rest gets there, at once or after leaving the present network. |
| Streaming.BlocksAppend | Module/md5.c:220-226 | A compression function iterated over whole blocks can be split at any block boundary. |
| Streaming.FeedPart | Module/md5.c:204-211 | Bytes that do not fill the block only lengthen what waits. |
| Streaming.FeedBlock | Module/md5.c:212-226 | Bytes that fill the block compress exactly it and leave nothing waiting. |
| Streaming.CounterMeaning | Module/md5.c:195-198 | The two words of the bit counter are 8 times the length modulo 2^64. |
| Streaming.CounterAdds | Module/md5.c:195-198 | Adding word by word, with the carry told by the wrapped sum, is that counter of the longer message. |
| Md5Block.Md5Transform | Module/md5.c:87-168 | The 64 unrolled lines, in place on four words, are the block function of section 3.4 of RFC 1321. |
| Md5Block.Line1 | Module/md5.c:96-111 | A line of round 1 is one step of the definition, with the register roles turned. |
| Md5Block.Line2 | Module/md5.c:113-128 | The same for round 2, whose code selects with the shorter form of G. |
| Md5Block.Line3 | Module/md5.c:130-145 | The same for round 3. |
| Md5Block.Line4 | Module/md5.c:147-162 | The same for round 4. |
| Md5Block.WordOrder2 | Module/md5.c:113-128 | Round 2 takes the message words in steps of 5 from word 1. |
| Md5Block.WordOrder3 | Module/md5.c:130-145 | Round 3 in steps of 3 from word 5. |
| Md5Block.WordOrder4 | Module/md5.c:147-162 | Round 4 in steps of 7 from word 0. |
| Words.Select | Module/md5.c:77-78 | z ^ (x & (y ^ z)) is (x & y) | (~x & z), for all words. |
| Words.Majority | Module/md5.c:430-433 | The code's form of the majority function is the standard's, for all words. |
| Md5.MD5Context.MD5Update | Module/md5.c:189-231 | For any chunk, the context then stands for the concatenation: state, waiting bytes and both counter words. Splitting is irrelevant. |
| Md5.MD5Context.MD5Final | Module/md5.c:237-276 | The digest is that of sections 3.1 to 3.5 of RFC 1321 of everything fed, in whatever pieces. |
| Md5.MD5Context.Count | Module/md5.c:195-198 | The two-word counter with its carry. |
| Md5.MD5Context.Pad | Module/md5.c:242-266 | 0x80 and zeros up to eight bytes short of a block, an extra block included. |
| Sha1.SHAHashBlock | Module/md5.c:394-456 | The expanded schedule and four loops of twenty rounds, in place, are the block function of section 6.1 of RFC 3174. |
| Sha1.Expand | Module/md5.c:399-402 | W[16..80] is the message schedule. |
| Sha1.ConstantIs | Module/md5.c:404-450 | The four constants are the integer parts of 2^30 times the square roots of 2, 3, 5 and 10. |
| Sha1.SHA_CTX.SHAUpdate | Module/md5.c:458-474 | For any chunk, the context then stands for the concatenation; bytes shifted into words are the decoded block. |
| Sha1.SHA_CTX.SHAFinal | Module/md5.c:476-509 | The digest is that of RFC 3174 of everything fed; afterwards the context is fresh. |
| Sha1.SHA_CTX.Output | Module/md5.c:500-503 | Shifting each register out by its top byte writes it in big-endian order. |
| Hmac.HmacSha1 | Module/md5.c:1121-1174 | HMAC of section 2 of RFC 2104 for every key length; a key longer than a block is overwritten by its hash, a shorter one is untouched. |
| Hmac.HmacMd5 | Module/md5.c:290-345 | HMAC of section 2 of RFC 2104 over MD5, for every key length. |
| Hmac.MacIs | Module/md5.c:290-345 | The definition written out: the key is hashed only above 64 octets, zero-filled, and xored into the two pads. |
| Hmac.Md5Mac | Module/md5.c:360-369 | MD5 of key, data and key. |
| Hmac.F | Module/md5.c:1183-1210 | The block function of section 5.2 of RFC 2898 at the given offset of the output; the rest of the output and the password are untouched. |
| Hmac.PasswordHash | Module/md5.c:1218-1227 | PBKDF2 with 4096 iterations, 40 octets, for admissible lengths; otherwise 0 and nothing written. |
| RoundCipher.InvCipherInverts | Module/md5.c:1035-1119 | For any lawful layers, key schedule and number of rounds the inverse cipher undoes the cipher (sections 5.1 and 5.3 of FIPS 197). |
| RoundCipher.EquivalentInverse | Module/md5.c:904-940 | With a reversed schedule whose inner keys went through the inverse mixing, the merged rounds compute the plain inverse cipher (section 5.3.5 of FIPS 197). |
| RoundCipher.Decrypt | Module/md5.c:1075-1113 | The unrolled rounds for 10, 12 and 14 compute that cipher. |
| KeyWalk.WalkBack | Module/md5.c:904-940 | Walking the encryption schedule from its end, four words at a time, gives the reversed and mixed schedule. |
| KeyWalk.WalkTransforms | Module/md5.c:904-940 | That schedule is the one the equivalent inverse cipher needs. |
| AesSpec.MixColInverse | Module/md5.c:747-762 | The two column mixings over GF(2^8) are inverse to each other, for every column. |
| AesSpec.InvMixColLinear | Module/md5.c:911-933 | The inverse mixing distributes over the sum of columns, which is what lets it move past the round key. |
| AesSpec.ShiftRowsAt | Module/md5.c:1050-1073 | Row r of the shifted state is row r of the state r columns further on, and back (equations 5.3 and 5.8 of FIPS 197). |
| AesSpec.MixColAt | Module/md5.c:747-762 | The mixing multiplies by the circulant of 2, 3, 1, 1, products by repeated doubling (section 4.2.1 of FIPS 197). |
| AesSpec.InvMixColAt | Module/md5.c:747-762 | The inverse mixing multiplies by the circulant of 14, 11, 13, 9. |
| AesTables.TablesInverse | Module/md5.c:513-676 | The 256 entries of RSb undo the 256 entries of FSb. |
| Aes.RRoundIs | Module/md5.c:1050-1073 | A table round is inverse row shift, inverse substitution, inverse mixing and key addition. |
| Aes.RLastIs | Module/md5.c:1097-1113 | The last round, without the mixing. |
| Aes.KeyTables.Build | Module/md5.c:893-902 | KT is RT through FSb, built once. |
| Aes.ThroughTablesMixes | Module/md5.c:914-916 | Looking a word up in KT applies the inverse mixing to it. |
| Aes.AesContext.Expand4 | Module/md5.c:835-845 | Ten turns give the 44 words of the key expansion of section 5.2 of FIPS 197. |
| Aes.AesContext.Expand6 | Module/md5.c:850-862 | Eight turns give 54 words of the expansion. |
| Aes.AesContext.Expand8 | Module/md5.c:867-887 | Seven turns give 64 words of the expansion, the middle substitution included. |
| Aes.AesContext.AesSetKey | Module/md5.c:805-943 | For 128, 192 and 256 bits both schedules are ready; for any other size 1 is returned and nothing is changed. |
| Aes.AesContext.AesDecrypt | Module/md5.c:1035-1119 | The output is the inverse cipher of section 5.3 of FIPS 197 under the expanded key, for 10, 12 and 14 rounds. |
| Aes.DecryptionInvertsCipher | Module/md5.c:1035-1119 | What is decrypted is what the cipher of section 5.1 encrypted, for every key and block. |
| Aes.BlockRoundTrips | Module/md5.c:1041-1118 | The same on sixteen octets, as blocks go in and come out: decrypting an encrypted block gives the block. |
| Aes.StateAt | Module/md5.c:1041-1048 | Input octet r + 4c is in row r of column c. |
| Michael.TkipKey.AppendByte | Module/rtmp_tkip.c:143-165 | Byte by byte, the state stands for the message so far under the word-wise definition. |
| Michael.TkipKey.Append | Module/rtmp_tkip.c:185-192 | Any split into appends gives the state of the concatenation. |
| Michael.TkipKey.GetMIC | Module/rtmp_tkip.c:210-225 | The padding loop ends, and MIC is the Michael code of section 8.3.2.3 of IEEE 802.11i-2004 of everything fed. |
| Michael.TkipKey.SetMICKey | Module/rtmp_tkip.c:114-124 | The two key words, and a fresh state. |
| Michael.BlockInvertible | Module/rtmp_tkip.c:150-160 | The block step can be undone, for every pair of words. |
| Michael.BlockIs | Module/rtmp_tkip.c:150-160 | The block function written out: rotation by 17, byte swap, rotation by 3, rotation by 30 (2 to the right). |
| Michael.AbsorbInjective | Module/rtmp_tkip.c:143-165 | Different states stay different through the same further words. |
| Michael.CalculateMICValue | Module/rtmp_tkip.c:471-506 | The code over destination, source, priority and three zeros, the LLC/SNAP header with the type if there is one, and the rest of the frame. |
| Michael.CompareMICValue | Module/rtmp_tkip.c:329-373 | Accepts if and only if the eight trailing octets are the code of the body under priority zero. |
| Michael.AcceptedExactlyAtPriorityZero | Module/rtmp_tkip.c:329-373 | A receiver accepts the sender's code for the same MSDU if and only if the sender's user priority was zero. |
| Tsc.IncTxTsc | Module/rtmp.h:172-181 | Byte-wise increment with carry is plus one modulo 2^48 on the little-endian counter. |
| Tsc.PackingsInjective | Module/rtmp_data.c:3435-3457 | Both packings into (IV16, IV32) keep the whole counter, whatever the key index. |
| Tsc.TkipReceiverReads | Module/rtmp_tkip.c:247-267 | What a receiver reads under section 8.3.2.2 of IEEE 802.11i-2004: third octet TSC0, first octet TSC1, then the upper 32 bits give the counter; extended-IV mark and key index in the fourth. |
| Tsc.TkipSeed | Module/rtmp_tkip.c:253 | The second octet is TSC1 with bit 5 set and bit 7 clear. |
| Tsc.AesReceiverReads | Module/rtmp_data.c:3446-3457 | The same for the AES packing: TSC0, TSC1, a zero octet, mark and index, upper bits. |
| Tsc.NoIvReuse | Module/rtmp_tkip.c:247-267 | Fewer than 2^48 MPDUs apart, two MPDUs of one key never carry the same IV. |
| Tsc.IvReusedAfterAll | Module/rtmp.h:172-181 | The bound is sharp: 2^48 MPDUs on, the IV comes again. |
| Plcp.WriteLength | Module/rtmp_data.c:4049-4101 | The two halves, eight bits each in the descriptor (rt2661.h:482-483), joined and decoded by the receiver's formula give back the exact octet count if and only if the value fits them, at CCK and OFDM rates alike; at OFDM rates the high half keeps to six bits up to 4095 octets, the length of the field on the air. |
| Plcp.UpAt22 | Module/rtmp_data.c:4082-4092 | At 11 Mbps rounding up adds a whole octet exactly when the remainder is 1 to 6, which is when the extension bit is set. |
| TupleCache.CacheAgrees | Module/rtmp_data.c:200-260 | After any history the entries have distinct senders and each is its sender's last recorded frame. |
| TupleCache.HitIsDuplicate | Module/rtmp_data.c:161-181 | A hit is never false. |
| TupleCache.ExactForFewSenders | Module/rtmp_data.c:161-181 | With no more senders than entries the cache hits on every duplicate and on nothing else. |
| TupleCache.EvictsLongestInserted | Module/rtmp_data.c:237-259 | Eviction removes the entry whose sender was inserted longest ago. |
| TupleCache.CachedAfterwards | Module/rtmp_data.c:200-260 | A frame is cached after recording another if and only if it is that one, or was cached, is not of that sender, and is not the oldest entry evicted by a new sender. |
| TupleCache.Duplicates.Search | Module/rtmp_data.c:161-181 | Over the array: a hit if and only if the frame is in the cache of the history. |
| TupleCache.Duplicates.Update | Module/rtmp_data.c:200-260 | Over the array: the cache of the history with this frame appended; adds, replaces in place or overwrites the oldest. |
| BssTable.AlwaysSeparate | Module/mlme.c:4504-4581 | After any sequence of set, delete and init the table is within its size, and two entries of one BSSID in one band have different names, neither all-zero. |
| BssTable.SetKeeps | Module/mlme.c:4504-4581 | A report keeps that invariant, in the full-table case with overwriting too. |
| BssTable.DeleteKeeps | Module/mlme.c:4363-4381 | So does a deletion. |
| BssTable.NamedMatchIsUnique | Module/mlme.c:4338-4361 | A report that shows its name matches at most one entry. |
| BssTable.SearchFindsWhatWasSet | Module/mlme.c:4504-4581 | Right after an accepted report the same search returns the index that call returned, with the reported data in it. |
| BssTable.SetTouchesOnePlace | Module/mlme.c:4389-4482 | A report changes no place but the one it returns. |
| BssTable.MatchesExactlyWhen | Module/mlme.c:4338-4361 | A report is about an entry if and only if BSSID and band agree and the names do, or one of them is all zeros. |
| BssTable.ReportGoesTo | Module/mlme.c:4504-4581 | To the first entry it is about; else behind the last; else, in a full table, in turn to one place after the other, if and only if the network is wanted and the station not connected. |
| BssTable.ReportLeaves | Module/mlme.c:4389-4482 | All it carries; the name only if it shows one, contention-free parameters only from an access point that sends them, the ATIM window only from an IBSS. |
| BssTable.DeleteTakesOut | Module/mlme.c:4363-4381 | The first entry of that station on exactly that channel goes, those behind it move up by one, the rest stays. |
| BssTable.DeleteFindsNone | Module/mlme.c:4363-4381 | Without such an entry nothing changes. |
| BssTable.HiddenTakesLeftoverName | Module/mlme.c:4414-4427 | For every new entry, appended or overwritten: it is nameless if and only if both the report and the place were; a hidden newcomer goes by the name left in its place, a named one by its own. |
| BssTable.NewcomerInheritsCfp | Module/mlme.c:4430-4439 | The contention-free parameters left in the place stay if and only if the report is an IBSS's, carries none, or carries the same. |
| BssTable.MissesItsOwnEntry | Module/mlme.c:4338-4361 | When such a network later shows its name, the search misses its entry if and only if that entry goes by another name. |
| BssTable.EnteredTwice | Module/mlme.c:4504-4581 | And then, while there is room, the network is entered a second time, in exactly those cases. |
| BssTable.LeftoverNameIsReachable | Module/mlme.c:4363-4381 | Set, delete, set hidden: in a table of any size the new network bears the deleted one's name. |
| BssTable.EvictedNameIsReachable | Module/mlme.c:4531-4559 | In a full table the hidden network the station looks for takes the name of the live one it evicts. |
| BssTable.BssTableClass.SearchWithSsid | Module/mlme.c:4338-4361 | The first matching index, or not found. |
| BssTable.BssTableClass.BssEntrySet | Module/mlme.c:4389-4482 | Writes one entry, keeping the old name when the report's is all-zero, the old contention-free parameters when it brings none, and the ATIM window of an infrastructure network. |
| BssTable.BssTableClass.SetEntry | Module/mlme.c:4504-4581 | The specified table and index, branch by branch. |
| BssTable.BssTableClass.DeleteEntry | Module/mlme.c:4363-4381 | The specified table: the entries behind move up. |
| RateControl.TuneKeeps | Module/mlme.c:2562-2785 | TxRate stays at most MaxTxRate and all quality values at most 3, and every table index is in range. |
| RateControl.FewSamplesReach | Module/mlme.c:2502-2557 | With at most fifteen frames a rate is reached if and only if the maximum allows it and the signal is at or above that rate's least level. |
| RateControl.FewSamplesMonotone | Module/mlme.c:2502-2557 | So a stronger signal never gives a lower rate. |
| RateControl.FewSamplesForget | Module/mlme.c:2494-2510 | And all history is cleared; with switching disabled nothing changes. |
| RateControl.UndoneWhenInVain | Module/mlme.c:2596-2632 | A rate-down that did not improve the error ratio is undone by one rate more than the next, 12 Mbps in place of 6 and 9. |
| RateControl.JumpsWhenCleared | Module/mlme.c:2633-2660 | A noisy environment ends if and only if the error ratio falls to 12 percent, and the rate then jumps to the highest one the signal is safe for, within the maximum, if that is higher. |
| RateControl.HistoryDecides | Module/mlme.c:2685-2733 | Otherwise, for every rate: reached on the worst quality if and only if the next lower rate reaches it or the signal guarantees it, within the maximum, with one named exception; on two best qualities if and only if the next rate does; else if and only if the present one does. |
| RateControl.CountersFollow | Module/mlme.c:2735-2785 | Last action, stable time, penalty and quick timer after the second. |
| RateControl.HistoryFollows | Module/mlme.c:2735-2785 | Quality and error ratio of every rate after the second: none after a rise, none of its own after a fall, else as judged. |
| RateControl.ProbesExactlyWhen | Module/mlme.c:2661-2684 | Two null frames go out if and only if no noisy rule applies, the error ratio is low, the link is an infrastructure one without APSD and a higher OFDM rate is within one step of a clean history. |
| RateControl.QuickKeepsExactly | Module/mlme.c:5800-5908 | The quick response keeps those bounds if and only if it does not step down under a CCK maximum in an OFDM-only configuration; it steps down when TxQuality is at its worst already, or more than fifteen frames show at least the rate-down error ratio. |
| RateControl.QuickExceedsTheMaximum | Module/mlme.c:5800-5908 | How it comes about, OFDM-only: the tuner raises the rate and starts the timer, a link change lowers the maximum to 11 Mbps, and the timer fires on a bad second; the rate is then 6 Mbps, above the maximum. |
| RateControl.QuickTwiceIsOnce | Module/mlme.c:5902-5907 | The counters are used up: firing again on what is left changes nothing. |
| RateControl.QuickIs | Module/mlme.c:5800-5908 | The rate goes to the next lower one of the table in force if and only if frames were sent over a live link and the quality is or becomes the worst; timer and counters follow. |
| RateControl.QuickRemembers | Module/mlme.c:5850-5900 | Quality and error ratio of every rate afterwards. |
| RateControl.SpentIs | Module/mlme.c:5902-5907 | The one-second counters are zero after a look at them and untouched otherwise. |
| RateControl.NullFrameKeeps | Module/rtmp_data.c:1504-1554 | Null-frame feedback keeps the bounds and the rate. |
| RateControl.NullFrameIs | Module/rtmp_data.c:1540-1552 | The next rate's quality, and only that, gets two worse on a retry and the worst on a failure. |
| RateControl.UpdateKeeps | Module/mlme.c:3782-3823 | A change of the supported rates keeps the bounds. |
| RateControl.UpdateReaches | Module/mlme.c:3782-3823 | A rate is reached if and only if both maxima reach it and, where the change adapts, signal and cautious start allow it. |
| RateControl.TuneStaysOfdm | Module/mlme.c:2458-2785 | OFDM-only with an OFDM maximum, the tuner never falls to a CCK rate. |
| RateControl.QuickStaysOfdm | Module/mlme.c:5800-5908 | Nor does the quick response. |
| RateControl.UpdateFallsToCckExactly | Module/mlme.c:3782-3823 | A link change does, if and only if it adapts to a signal below -75 dBm. |
| RateControl.UpdateFalls | Module/mlme.c:3811-3812 | A concrete signal at which it does. |
| RateControl.OfdmOnlyRunStaysOfdm | Module/mlme.c:3782-3823 | A run of all four updaters without such a change stays on OFDM rates. |
| RateControl.RaisesExactlyWhen | Module/mlme.c:2685-2733 | Outside the noisy-environment rules the rate goes up if and only if present and next rate have zero TxQuality, or the present one is at its worst and the signal-strength floor lies above it. |
| RateControl.RaisedByBadHistory | Module/mlme.c:2688-2723 | A concrete sample in which the second case raises the rate. |
| RateControl.FallsOnlyToTheFloor | Module/mlme.c:2604-2733 | With enough samples the tuner lowers the rate only on the worst quality, outside the noisy-environment rules, and never below what the signal strength guarantees. |
| RateControl.ProbesTryTheNextRate | Module/mlme.c:2669-2684 | Null-frame probes go out only at an OFDM rate above the present one and within the maximum, in a second that does not lower the rate. |
| RateControl.FailedProbeHoldsBack | Module/rtmp_data.c:1540-1552 | A failed probe keeps the history from raising the rate in the next second. |
| RateControl.DownToIs | Module/mlme.c:2691-2723 | The ladder of conditions is the greater of next lower rate and signal floor, with one exception: from 9 Mbps between -70 and -66 dBm it goes to 11 Mbps. |
| RateControl.SafeRateIsHighest | Module/mlme.c:2644-2648 | Leaving a noisy environment takes the highest rate whose safe level the signal exceeds. |
| RateControl.RateAdapter.MlmeDynamicTxRateSwitching | Module/mlme.c:2458-2785 | Over the counters and arrays: the specified tuner and number of probes, bounds kept. |
| RateControl.RateAdapter.StaQuickResponeForRateUpExec | Module/mlme.c:5800-5908 | The specified quick response, and the three one-second counters cleared exactly when there was traffic on a live link. |
| RateControl.RateAdapter.NullFrameDone | Module/rtmp_data.c:1504-1554 | The specified feedback. |
| RateControl.RateAdapter.MlmeUpdateTxRates | Module/mlme.c:3782-3823 | The specified maximum and starting rate. |

## Left out

Assumptions, and what the contracts do not capture:

- Memory: threads interleave sequentially consistently; the barriers of the source are taken to provide that.
- MlmeQueue.Mlme.MlmeEnqueue: the time stamp, signal and channel that `MlmeEnqueueForRecv` stores besides are not modelled.
- TxPath.PrecheckIsEnough: the pre-check is not under the ring lock in the source; no other sender may come between it and the loop. At most sixteen fragments, thresholds from 36 up.
- TxAdapter.TxAdapter.HardTransmit: payload lengths and counts only, not buffer addresses; the tail that blocks association after a MIC failure belongs to `Connect`, where states may be forced at any time. DMA mapping succeeds.
- Fragment.EstimateExact: a threshold of 28 divides by zero in `RTMPSendPacket` and is excluded; thresholds are sixteen-bit, and so are lengths where the threshold does not hold the headers.
- TxLedger.NothingLostNothingTwice: aggregation compiled out; with it the port-not-secured exit does not release the second packet.
- ConnectSystem.EveryAttemptEnds: candidates have individual addresses, enqueues succeed, `bBlockAssoc` does not change during an attempt (a block is lifted after 60 seconds, or by the user), and `del_timer_sync` waits for a running callback. SYNC and ASSOC take a request and answer it later.
- Connect.Cntl.CntlOidSsidProc: names and addresses are reduced to whether and how many candidates match; cipher selection, rates and registers are not modelled.
- Auth.AuthMachine.MlmeAuthReqAction: the sanity checks of `sanity.c` are predicates on the message; deauthentication and class-2 errors do not change this machine and are not modelled.
- Hmac.F: the password is a buffer without its terminator, of at most one block, as its only caller ensures; the intermediate xor goes through a local.
- Hmac.PasswordHash: no aliasing of password and output.
- Md5.MD5Context.MD5Final: the closing memset clears the context, or as many octets as a pointer has in `hmac_md5`; neither is modelled. Byte order is the little-endian build.
- Aes.RRoundIs: the entries of RT0 to RT3 are taken by their law (the four products of RSb), not transcribed; FSb and RSb are transcribed and proved inverse, but not tied to the definition of the S-box in section 5.1.1 of FIPS 197.
- Aes.KeyTables.Build: one table and its rotations for the four tables KT0 to KT3.
- Words.Select: words are numbers below 2^32 with the bitwise operators defined bit by bit.
- Tsc.IncTxTsc: a run of MPDUs is the sequence of counter values after each increment, under one key.
- Plcp.WriteLength: rates 0 to 11, the ones the rate tables hold.
- BssTable.BssTableClass.BssEntrySet: what every report overwrites, and the EDCA, QoS and load parameters that are marked invalid when absent, are one value.
- BssTable.AlwaysSeparate: the next place to overwrite is advanced by (x + 1) mod the size, as intended by the unsequenced expression at `mlme.c:4555`.
- RateControl.TuneKeeps: antenna choice and the timer's period are not modelled, and in a run the quick response may fire at any time; RALINK_ATE and WIFI_TEST are off.
- RateControl.UpdateKeeps: the parsing of rate lists and the basic and ACK rates are not modelled.

Not modelled at all:

- `MlmeRestartStateMachine` and `MlmeQueueDestroy`, which may drop a slot that a producer is still filling.
- The aggregation path of `RTMPHardTransmit`, and the management ring.
- RX defragmentation, whose first-fragment and MIC-buffer handling do not match a plain concatenation.
- `sync.c`, `assoc.c`, `sanity.c`, `wpa.c` and `rtmp_wep.c`: their messages are environment steps.
- AES encryption, which nothing here calls; the cipher appears as the specification that decryption inverts.
- Register, BBP and RF access, antenna and power tuning, LED, PCI, EEPROM, firmware, ioctl, debug output: I/O without a property of its own.
- Duration and channel tables, RSSI sorting, the random-number shift register: finite or easy additions.
- Big-endian builds.
