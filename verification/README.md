# i.MX6 drivers: rings, clocks, dividers and queues

Dafny models of the parts of the QNX i.MX6 drivers whose correctness is not local, and proofs of what
they guarantee. `dafny verify dfyconfig.toml` checks everything.

- **Transmit ring of the ENET driver** (`TxMachine`, `TxSafety`, `TxRuns`, `TxRelease`, `TxIntake`,
  `TxStores`, `TxReaping`, `TxWriteBack`, `TxRing`, `TxRestart`). The descriptor ring is a protocol between the
  driver and a DMA engine that may run between any two of the driver's stores. `TxMachine` states it one access at a time; the class
  `TxRing.Ring` is the driver in its own form, over arrays, and every method extends a legal run of the
  machine, so the theorems about all runs hold of every execution. `TxRestart` is the protocol by which
  a full ring's queue is taken up again.
- **Receive ring** (`RxAssembly`, `RxState`, `RxRing`). Frames split over descriptors are put together
  across calls, mbufs are swapped in the ring, packets go to a bounded queue.
- **Receive wake-up** (`RxWakeup`, `RxControl`, `RxEvents`). Mask, pulse, mutex, `rx_full` and
  `rx_running` decide who enables an interrupt again; the event register decides whether it is raised, and
  the doorbells keep the engine from sleeping with nobody to wake it.
- **IEEE 1588 support** (`PtpClock`, `PtpMessage`, `PtpStamps`, `PtpCompensation`). Time from a timer, a
  seconds counter and a half-second flag; finding PTP messages in mbuf chains; the timestamp tables; the
  search for a clock correction.
- **AVB shaping** (`AvbShaper`), the idle slope of IEEE 802.1Q section 8.6.8.2.
- **UART divider search** (`BaudSearch`) and **FlexCAN queues** (`CanReceive`, `CanTransmit`).
- `RingArith`, `Packets` and `Division` hold what several of these share.

Where a claim in the code's comments or a property one would expect does not hold, the model follows
the code, the exact condition is proved, and a lemma gives an input that fails:

- A packet sent while the interface is down is published but not kicked, and bringing the interface up
  does not kick it either (`TxRuns.NoLostKick`, `TxRelease.KickMissed`, `StillMissed`).
- A full ring's queue is not taken up again when the mark is made after the last completion has been
  handled, when the restart finds the link down, or when frames that were never kicked fill the ring
  (`TxRestart.StalledIff`, `QueueStalls`, `LinkStalls`, `UnkickedStalls`).
- A receive timestamp is read after its descriptor was given back, and may be a later frame's
  (`RxState.StampAfterwards`, `RxRing.Ring.Finish`).
- Frames left in the ring by a flow control stop wait, unmasked, until another frame arrives
  (`RxEvents.UnnoticedIff`, `LeftUnnoticed`).
- A reaped head frees the whole mbuf chain although the engine may still own later fragments
  (`TxRelease.FreedWhileOwnedIff`, `FreedWhileOwnedHappens`).
- `mx6q_stop` clears only the descriptors of frame heads, so that a ring with an unsent frame of two
  fragments comes back with a stale READY bit (`TxRelease.StopCleanIff`, `StopLeavesReady`).
- An mbuf allocation failure in mid-frame hands up a torn frame (`RxAssembly.FrameIntactIff`,
  `TornExample`).
- The flow control test, which by its comment is about transmitted pause frames, is true of every
  setting except NONE (`RxState.FlowStopsUnlessNone`).
- Classes stopped by flow control are forgotten if the queue is drained while the interface is down
  (`RxWakeup.NoLostWakeup`, `ClassLost`).
- Setting the time leaves the half-second flag alone, and a seconds handler that has already read the
  event goes on to count; either way the clock can read a second off (`PtpClock.ReadAfterSetIff`,
  `InPhaseAfterSetIff`, `SetReadsLate`, `HandlerAfterSet`).
- The event message test does not look at the IP version, header length or fragmentation, nor at the
  message type (`PtpMessage.FoundIsEventIff`, `LaterFragmentIsFound`, `AnnounceIsFound`).
- A timestamp search with a repeated key may find the older record (`PtpStamps.FindsNewestIff`,
  `FindsOlder`).
- Clock corrections of the clock frequency plus two or more divide by zero although the code has a
  branch for "major corrections"; plus one selects a period of zero (`PtpCompensation.TrapsIff`,
  `TrapHappens`, `OneOverSelectsNothing`). The header comment says that `positive` slows the clock down; the code adds
  the correction then, and so does the model.
- Bandwidth requests in kbit/s are divided by 1024, so that larger ones are not covered
  (`AvbShaper.MegabitsCoverIff`), and the slope is rounded down before it is rounded up
  (`AvbShaper.EnoughIff`, `ShareFallsShort`).
- The baud rate estimate wraps around for numerators up to 3, and the search misses exact dividers
  (`BaudSearch.DivisorWrapsIff`, `NoWrapIff`, `SlowRateMissed`).

## Model

| member | source | states |
|---|---|---|
| RingArith.SlotNext | src/hardware/devnp/mx6x/mx6q.h:549-551 | the successor macros step to the slot of the next descriptor, for every ring size, wrapping at the end |
| RingArith.SlotsDiffer | src/hardware/devnp/mx6x/mx6q.h:549-550 | descriptors less than one turn apart never share a slot |
| RingArith.SlotCovered | src/hardware/devnp/mx6x/mx6q.h:549-550 | each slot is used by one descriptor of every window of a ring's length |
| RingArith.RingSize | src/hardware/devnp/mx6x/detect.c:470-484 | the ring size is a multiple of four from the least allowed to 2048: the request rounded down when in range, the limit passed otherwise |
| RingArith.LowerAfterTurn | src/hardware/devnp/mx6x/mx6q.h:549-550 | of two descriptors less than a turn apart the later has the lower slot exactly when the index came round in between |
| RingArith.TurnAndSlot | src/hardware/devnp/mx6x/mx6q.h:549-550 | how often the index came round and the slot together name the descriptor |
| Packets.NonEmptyBytes | src/hardware/devnp/mx6x/transmit.c:165-170 | skipping zero length mbufs loses no data, and leaves nothing exactly when there was no data |
| TxSafety.WritePlace | src/hardware/devnp/mx6x/transmit.c:172-207 | a single store of the loading loop keeps every slot of the ring what the driver's and the engine's progress say it is |
| TxSafety.CountPlace | src/hardware/devnp/mx6x/transmit.c:230-239 | advancing the count, the packet slot and the index keeps every slot right while nothing is published yet |
| TxSafety.ClosePlace | src/hardware/devnp/mx6x/transmit.c:260-261 | writing LAST into the final descriptor leaves the rest of the frame, and all other frames, alone |
| TxSafety.PublishPlace | src/hardware/devnp/mx6x/transmit.c:250-264 | setting the head's READY turns exactly the frame in hand into published descriptors, LAST on the final one only |
| TxSafety.ReapPlace | src/hardware/devnp/mx6x/transmit.c:386-426 | a descriptor taken back becomes a free one for the next turn of the ring |
| TxSafety.SendPlace | src/hardware/devnp/mx6x/mx6q.h:485-506 | the engine's step moves one descriptor from published to released and touches no other |
| TxSafety.BellCounts | src/hardware/devnp/mx6x/transmit.c:272-306 | the doorbell goes down only when the engine finds nothing published, never in mid-frame; ringing, skipping it or the interface going up or down loses no other fact |
| TxSafety.ReapedIsReleased | src/hardware/devnp/mx6x/transmit.c:390-401 | a descriptor that passes the reaper's test had been published and released by the engine |
| TxSafety.SentIsPublished | src/hardware/devnp/mx6x/transmit.c:241-264 | the engine only ever finds READY what was published: it never runs into a half-loaded frame |
| TxSafety.StepKeeps | src/hardware/devnp/mx6x/transmit.c:162-426 | every single access by driver, interrupt handler or engine keeps the whole ring invariant |
| TxRuns.RunOk | src/hardware/devnp/mx6x/transmit.c:88-433 | the ring invariant holds after every interleaving of driver and engine, from every fresh ring |
| TxRuns.PublishedInOrder | src/hardware/devnp/mx6x/transmit.c:88-308 | frames become visible in the order in which the packets were taken, with at most the newest still withheld |
| TxRuns.CutFrames | src/hardware/devnp/mx6x/transmit.c:250-264 | cutting a descriptor stream after each LAST gives back the packets' bytes: LAST is on exactly the final descriptor of each frame |
| TxRuns.WireCarriesPackets | src/hardware/devnp/mx6x/transmit.c:162-270 | in every interleaving the wire carries a prefix of the packets' byte strings, whole and in order, plus the beginning of the next; all of them once the engine has caught up |
| TxRuns.NeverStarvesMidFrame | src/hardware/devnp/mx6x/transmit.c:190-264 | once part of a frame is sent its next descriptor is READY and the engine is running, interface up or down |
| TxRuns.NoLostKick | src/hardware/devnp/mx6x/transmit.c:272-306 | in every run, outside the stretch from publication to the kick, the doorbell is down with a READY descriptor at the engine's pointer if and only if a kick was skipped because the interface was down and the doorbell has not been rung since |
| TxRuns.LastActiveMeansWork | src/hardware/devnp/mx6x/event.c:78-95 | READY before the producer index tells exactly whether unsent descriptors are waiting |
| TxRuns.RingBetweenCalls | src/hardware/devnp/mx6x/transmit.c:230-239 | between calls the in-use count is the distance of the indices and at most n-1, equal indices mean empty, WRAP is on the last slot only, slots outside the outstanding stretch hold no flag and no packet |
| TxRuns.LoadedSlotIsFree | src/hardware/devnp/mx6x/transmit.c:175-184 | the branch for a READY descriptor in the loading loop is never taken, in any run |
| TxRuns.PacketsConserved | src/hardware/devnp/mx6x/transmit.c:233-235 | in every run the freed packets followed by those in the ring's slots are the packets taken, each once and in order |
| TxRuns.InRingIs | src/hardware/devnp/mx6x/transmit.c:233-235 | the slot array read round from the consumer index holds exactly the packets whose heads are outstanding |
| TxRelease.HandOver | src/hardware/devnp/mx6x/transmit.c:88-308 | given more than MAX_FRAGS free slots any packet with data can be handed over; the engine is awake afterwards if and only if it was or the interface is up |
| TxRelease.KickMissed | src/hardware/devnp/mx6x/transmit.c:275-306 | a packet handed to a fresh ring with the interface down stays there, READY, with the engine asleep |
| TxRelease.StillMissed | src/hardware/devnp/mx6x/detect.c:1186-1212 | bringing the interface up does not wake the engine for it |
| TxRelease.FreedWhileOwnedIff | src/hardware/devnp/mx6x/transmit.c:398-416 | taking back a head frees the whole packet; the engine still owns a fragment exactly when the frame's last descriptor is still READY |
| TxRelease.FreedWhileOwnedHappens | src/hardware/devnp/mx6x/transmit.c:398-416 | for every packet of two fragments there is a run that frees it with its second fragment unsent |
| TxRelease.ReapStopsAtEngine | src/hardware/devnp/mx6x/transmit.c:386-401 | the reaper's test fails only at a descriptor not released or a frame end not written back |
| TxRelease.StopCleanIff | src/hardware/devnp/mx6x/detect.c:1307-1329 | stopping leaves a usable ring if and only if the engine stands at the consumer index and every outstanding slot is a head without timestamp request |
| TxRelease.StopLeavesReady | src/hardware/devnp/mx6x/detect.c:1314-1322 | for every packet of two fragments there is a run after which stopping leaves a READY descriptor that no packet accounts for |
| TxRelease.InRingTurned | src/hardware/devnp/mx6x/detect.c:1314-1318 | going through the slots from 0 meets the same packets as going round from the consumer index |
| TxRelease.StopFreesTheRest | src/hardware/devnp/mx6x/detect.c:1310-1322 | reaping and stopping together free every packet ever taken exactly once |
| TxIntake.AdmittedFits | src/hardware/devnp/mx6x/transmit.c:97-140 | a packet that enters the ring has the original's bytes in 1 to MAX_FRAGS descriptors, and the original is freed once if it was replaced or refused and not at all otherwise |
| TxIntake.AdmittedReadable | src/hardware/devnp/mx6x/transmit.c:97-125 | whatever enters the ring has its data on 8 byte boundaries, unless the hardware does not ask for it |
| TxIntake.AdmittedItselfIff | src/hardware/devnp/mx6x/transmit.c:97-125 | a packet enters the ring itself, with nothing freed, if and only if the engine can read each mbuf with data and there are at most ten |
| TxIntake.CopyFits | src/hardware/devnp/mx6x/transmit.c:44-85 | a copy is one mbuf of at most a cluster, unless the packet is larger and is duplicated into at most ten |
| TxIntake.IntakeConserves | src/hardware/devnp/mx6x/transmit.c:38-140 | over any queue of packets, the packets and the copies made of them are, as multisets, those that become frames and those freed on the way |
| TxIntake.QueuedOnce | src/hardware/devnp/mx6x/transmit.c:38-140 | if copies are new, a packet queued once becomes a frame or is freed, once |
| TxStores.EngineMoves | src/hardware/devnp/mx6x/transmit.c:186-192 | whatever the engine does, descriptors not yet published and the driver's own variables stay as they are |
| TxStores.StillReleased | src/hardware/devnp/mx6x/transmit.c:390-401 | the reaper may read status and update-done separately: what it saw released stays so until it acts |
| TxReaping.LaterReads | src/hardware/devnp/mx6x/transmit.c:386-401 | when the two reads make the reaper stop, all the engine had finished beforehand has been taken back |
| TxWriteBack.FrameEndsWrittenBack | src/hardware/devnp/mx6x/transmit.c:386-401 | in every run, at any time: each frame end taken back had been written back by the engine; the update-done flag marks exactly the descriptors in the ring that have been, none of them unsent |
| TxIntake.HeaderBytes | src/hardware/devnp/mx6x/transmit.c:498-500 | moving the data pointer down restores the Ethernet header in front of the packet's bytes |
| TxRing.Ring.constructor | src/hardware/devnp/mx6x/detect.c:554-567 | attaching leaves a fresh ring of the clamped size with WRAP on the last slot |
| TxRing.Ring.Engine | src/hardware/devnp/mx6x/transmit.c:241-270 | any number of engine and interrupt steps between two accesses is a legal continuation of the run |
| TxRing.Ring.EngineTurn | src/hardware/devnp/mx6x/event.c:177-182 | one step of engine or transmit interrupt keeps the run legal and the driver's side untouched |
| TxRing.Ring.LoadDescriptor | src/hardware/devnp/mx6x/transmit.c:186-207 | the four stores, the engine running after each, complete the loading of one fragment |
| TxRing.Ring.LoadFragment | src/hardware/devnp/mx6x/transmit.c:172-219 | one turn of the loading loop fills the slot of the next fragment and ends at its successor |
| TxRing.Ring.LoadFrame | src/hardware/devnp/mx6x/transmit.c:162-220 | the loop fills one descriptor for each non-empty mbuf in consecutive slots, remembering the first and last |
| TxRing.Ring.CountFrame | src/hardware/devnp/mx6x/transmit.c:230-239 | the count, the packet slot and the producer index take the frame in, with the engine still kept out |
| TxRing.Ring.PublishFrame | src/hardware/devnp/mx6x/transmit.c:250-264 | LAST first and the head's READY last publish exactly the frame in hand |
| TxRing.Ring.Kick | src/hardware/devnp/mx6x/transmit.c:272-306 | with the interface running the doorbell is rung unless seen up four times, and no published work sleeps; otherwise the doorbell is left as it is |
| TxRing.Ring.CountFragments | src/hardware/devnp/mx6x/transmit.c:97-117 | the count is at most ten exactly when the engine can read every mbuf with data and there are at most ten, and is then their number |
| TxRing.Ring.Defrag | src/hardware/devnp/mx6x/transmit.c:38-86 | copying yields the admitted packet or none, and frees exactly the packets that intake drops |
| TxRing.Ring.Tx | src/hardware/devnp/mx6x/transmit.c:88-308 | one packet becomes exactly one frame, or is freed with ENOMEM; the ring is a legal run again |
| TxRing.Ring.TakeBack | src/hardware/devnp/mx6x/transmit.c:403-425 | taking back one descriptor clears its slot but for WRAP, frees its packet if it is a head and moves the consumer index |
| TxRing.Ring.TakeBackOne | src/hardware/devnp/mx6x/transmit.c:386-426 | one turn either takes one descriptor back, a frame end only if written back, or stops having taken all the engine had finished |
| TxRing.Ring.TransmitComplete | src/hardware/devnp/mx6x/transmit.c:361-433 | reaping frees packets only, in order, takes no frame end back before the engine wrote it back, and ends with everything taken back that the engine had finished when it began |
| TxRing.Ring.TakenBackWrittenBack | src/hardware/devnp/mx6x/transmit.c:386-426 | of every execution: no frame end has left the ring before the engine wrote it back |
| TxRing.Ring.MakeRoom | src/hardware/devnp/mx6x/transmit.c:326-342 | room for the largest frame is found unless, with all finished descriptors taken back, the ring is still too full |
| TxRing.Ring.Start | src/hardware/devnp/mx6x/transmit.c:310-356 | the output queue moves into the ring in order, each packet a frame or freed; it stops with the queue empty, or with the ring marked full, too full for the largest frame although a reap since the last packet took back all that was finished; with the interface or link down the queue is purged and no mark changes |
| TxRing.Ring.Output | src/hardware/devnp/mx6x/transmit.c:478-505 | a packet sent past the stack becomes a frame with its Ethernet header back in front (EOK), or is freed for want of a copy (ENOMEM) or of room (ENOBUFS), the latter only when everything finished before the call has been taken back; with the interface running it does not sleep |
| TxRing.Ring.Init | src/hardware/devnp/mx6x/detect.c:1186-1192 | coming up marks the interface as running and touches nothing else of the transmit path |
| TxRing.Ring.Stop | src/hardware/devnp/mx6x/detect.c:1270-1329 | stopping marks interface and link as down and the queue as idle, reaps, then frees what the slots hold, each packet once; the ring is usable afterwards exactly if it stops clean |
| TxRing.Ring.ClearSlots | src/hardware/devnp/mx6x/detect.c:1313-1322 | the clearing loop empties every packet slot and clears exactly the descriptors of those slots |
| TxRing.Ring.OnTheWire | src/hardware/devnp/mx6x/transmit.c:88-308 | after any sequence of calls the wire, cut at LAST, is a prefix of the frames sent, in order, and all of them once the engine has caught up |
| TxRing.Ring.EngineReads | src/hardware/devnp/mx6x/transmit.c:99-116 | of every execution: each mbuf the engine has been given, and the one it would fetch next, lies on an 8 byte boundary unless the hardware does not ask for it |
| TxRing.Ring.WireFlags | src/hardware/devnp/mx6x/transmit.c:194-208 | each descriptor sent asks for a timestamp if and only if its frame's packet is an event message, and for the CRC if and only if it is the last |
| TxRing.Ring.PacketsAccounted | src/hardware/devnp/mx6x/transmit.c:233-235 | between calls each frame's packet is freed or in one slot, once and in order |
| TxRing.Ring.StartConserves | src/hardware/devnp/mx6x/transmit.c:310-356 | over a whole start, each packet dequeued and each copy made is at one place, once: ring slot, freed or dropped |
| TxRing.Ring.AsleepIff | src/hardware/devnp/mx6x/transmit.c:272-306 | between calls published work is asleep if and only if a kick was skipped with the interface down and not made up for |
| TxRestart.StalledIff | src/hardware/devnp/mx6x/transmit.c:310-356 | in every run the queue stands still if and only if the ring was marked full with nobody coming who would see the mark, or a restart took the mark down and found the link down; and since then the interface was not stopped nor, after a late mark, a frame sent directly found room |
| TxRestart.StalledUntil | src/hardware/devnp/mx6x/event.c:177-190 | a stalled queue stays so under every other step: link changes, reaping, interrupts, queueing |
| TxRestart.QueueStalls | src/hardware/devnp/mx6x/transmit.c:328-341 | late mark, for every ring size: all frames finished and the interrupt handled between the last reap and the mark |
| TxRestart.LinkStalls | src/hardware/devnp/mx6x/transmit.c:317-322 | for every ring size: the mark is in time, but the link is down at the restart; the link comes up and a packet waits |
| TxRestart.UnkickedStalls | src/hardware/devnp/mx6x/transmit.c:275-341 | for every ring size: frames sent while the interface is down fill the ring, and once it is up nothing moves |
| RxAssembly.WholeAddsUp | src/hardware/devnp/mx6x/receive.c:165-169 | a frame's header length is the sum of its mbuf lengths, each that of its own bytes |
| RxAssembly.OneFrame | src/hardware/devnp/mx6x/receive.c:99-170 | from a clean start every frame leaves a clean state and adds at most one packet |
| RxAssembly.FrameIntactIff | src/hardware/devnp/mx6x/receive.c:115-131 | a frame handed up is whole with right lengths if and only if no allocation failed before its last descriptor |
| RxAssembly.StreamIntactIff | src/hardware/devnp/mx6x/receive.c:78-251 | over any stream the packets handed up are exactly the frames without error whose last mbuf could be replaced, whole and in order, if and only if none of them was torn by an earlier allocation failure |
| RxAssembly.TornExample | src/hardware/devnp/mx6x/receive.c:115-131 | a frame of two fragments whose first allocation fails is handed up as its second half with wrong length |
| RxState.FillKeeps | src/hardware/devnp/mx6x/mx6q.h:508-522 | the engine completing a descriptor keeps every receive slot right |
| RxState.SupplyKeeps | src/hardware/devnp/mx6x/receive.c:35-56 | putting an mbuf into a slot and giving the descriptor back keeps every receive slot right |
| RxState.StampAfterwards | src/hardware/devnp/mx6x/receive.c:163-180 | a slot given back shows its own timestamp exactly until the engine has come round to it again |
| RxState.InSlotsSwap | src/hardware/devnp/mx6x/receive.c:137-163 | swapping the mbuf in a slot exchanges exactly those two in the ring's ownership |
| RxState.FlowStopsUnlessNone | src/hardware/devnp/mx6x/receive.c:231 | the test for flow control on transmit is true of every setting but NONE |
| RxState.Is1722Iff | src/hardware/devnp/mx6x/receive.c:195-199 | the test holds exactly of the first mbufs that read twelve address bytes, 81 00, two bytes of tag, 22 F0 and a rest |
| RxState.TaggedIsAvtpIff | src/hardware/devnp/mx6x/receive.c:195-207 | a tagged frame is one if and only if its type is 22 F0; tagged IPv4 is not |
| RxState.UntaggedIsNotAvtp | src/hardware/devnp/mx6x/receive.c:195-207 | nor is a frame of type 22 F0 without a tag |
| RxRing.Ring.constructor | src/hardware/devnp/mx6x/detect.c:592-613 | attaching gives every slot an mbuf of its own, all descriptors EMPTY |
| RxRing.Ring.Others | src/hardware/devnp/mx6x/receive.c:85-91 | the engine and the stack thread may run between any two accesses without disturbing what the driver holds |
| RxRing.Ring.Resupply | src/hardware/devnp/mx6x/receive.c:35-56 | a slot's mbuf is exchanged for the one supplied and the consumer index moves to the next descriptor |
| RxRing.Ring.Recycle | src/hardware/devnp/mx6x/receive.c:99-131 | on an error or without a new mbuf the slot keeps its mbuf, and the partial packet is freed |
| RxRing.Ring.Extend | src/hardware/devnp/mx6x/receive.c:137-163 | a descriptor in mid-frame is linked to the partial packet and its slot gets a new mbuf |
| RxRing.Ring.Finish | src/hardware/devnp/mx6x/receive.c:163-180 | the last descriptor completes the packet that reassembly prescribes and leaves no partial one; the timestamp read afterwards is its own unless the engine has completed every descriptor of the ring by then, and then that of the frame a turn later |
| RxRing.Ring.HandOver | src/hardware/devnp/mx6x/receive.c:195-246 | a tagged IEEE 1722 packet goes straight up, another is queued, or freed if the queue that all classes share is full; reception stops, and the class is marked, exactly when flow control is on and that queue has at most one place left |
| RxRing.Ring.ReceiveOne | src/hardware/devnp/mx6x/receive.c:78-251 | one turn takes one descriptor and routes at most one packet, refused only with the queue full; it finds nothing only when all completed descriptors are taken |
| RxRing.Ring.Receive | src/hardware/devnp/mx6x/receive.c:58-251 | receiving ends with every completed descriptor taken and the mark as it was, or stopped by flow control with the class marked full |
| RxRing.Ring.Delivered | src/hardware/devnp/mx6x/receive.c:78-250 | at any time, however the descriptors are spread over calls, the completed packets are exactly the frames so far that should be kept if and only if none was torn; a packet went straight up iff it was 1722, was refused iff it found the queue full, and direct, delivered and queued packets are those of each fate, in order |
| RxRing.Ring.OneOwner | src/hardware/devnp/mx6x/receive.c:99-163 | every mbuf ever allocated is at exactly one of: ring, partial packet, queue, stack, direct input, freed |
| RxRing.Ring.SlotsMatch | src/hardware/devnp/mx6x/receive.c:49-55 | every slot owns the mbuf its descriptor points at |
| RxWakeup.StepKeeps | src/hardware/devnp/mx6x/event.c:25-76 | every step of handler, receive thread, stack thread and interface keeps one keeper for each class that is not lost |
| RxWakeup.NoLostWakeup | src/hardware/devnp/mx6x/event.c:25-140 | in every run each class has exactly one of: interrupt enabled, pulse pending, being serviced, marked full, if and only if the stack thread never enabled interrupts with the class marked and the interface down, and otherwise none; a mark or a queued packet means the stack thread is on its way |
| RxWakeup.ClassLost | src/hardware/devnp/mx6x/event.c:53-72 | for every class and queue length there is a run that loses the class |
| RxWakeup.DrainEnables | src/hardware/devnp/mx6x/event.c:46-76 | left to itself the stack thread empties the queue and unmasks exactly the classes that were stopped, or loses exactly those if the interface is down |
| RxWakeup.DrainTurn | src/hardware/devnp/mx6x/event.c:32-42 | one turn of draining brings the stack thread closer to the same end |
| RxWakeup.EnableKeepsIff | src/hardware/devnp/mx6x/event.c:53-72 | enabling keeps every class's keeper if and only if the interface is up or no class is marked |
| RxEvents.UnnoticedIff | src/hardware/devnp/mx6x/detect.c:255-261 | in every run an unmasked class has completed frames and no event if and only if flow control stopped it before all frames present at the pulse were taken and none completed since |
| RxEvents.NeverAtRest | src/hardware/devnp/mx6x/receive.c:252-271 | in every run, while the interrupt is unmasked it is about to be raised, or the engine is awake with an EMPTY descriptor: the doorbells written after receiving and after unmasking suffice |
| RxEvents.OnlyAFrameHelps | src/hardware/devnp/mx6x/event.c:46-76 | then nothing but the next frame brings an interrupt, and the engine is awake to complete it |
| RxEvents.LeftUnnoticed | src/hardware/devnp/mx6x/receive.c:231-243 | it happens with two frames of which one is let through |
| RxControl.Control.Interrupt | src/hardware/devnp/mx6x/event.c:113-140 | the handler masks and reports one enabled class with an event, the AVB classes first, or none if there is none |
| RxControl.Control.TakePulse | src/hardware/devnp/mx6x/detect.c:232-256 | the receive thread takes a pulse |
| RxControl.Control.OfferPacket | src/hardware/devnp/mx6x/receive.c:209-244 | under the mutex a packet is enqueued unless the queue is full, the stack thread woken, and the class stopped exactly when flow control is on and the queue nearly full |
| RxControl.Control.ServiceDone | src/hardware/devnp/mx6x/detect.c:256-260 | the class is unmasked once its ring is empty |
| RxControl.Control.ProcessQueue | src/hardware/devnp/mx6x/event.c:25-44 | with handler and receive thread running whenever the mutex is free, everything queued before and meanwhile goes to the stack in order, and the mutex is kept when the queue is found empty |
| RxControl.Control.EnableQueue | src/hardware/devnp/mx6x/event.c:46-76 | the stopped classes are unmasked if the interface is up, the marks and the running flag cleared, the mutex released |
| PtpClock.CorrectedIff | src/hardware/devnp/mx6x/ptp.c:277-298 | the seconds reported are those of the capture exactly when the software's view lies within the half second around it that the captured nanoseconds allow |
| PtpClock.WithinQuarter | src/hardware/devnp/mx6x/ptp.c:277-298 | a view less than 250 ms later, or up to 250 ms earlier, than the capture always gives the right seconds |
| PtpClock.QuarterIsTight | src/hardware/devnp/mx6x/ptp.c:281-282 | on either side one nanosecond more can be wrong |
| PtpClock.CorrectedWraps | src/hardware/devnp/mx6x/ptp.c:277-298 | the correction gives the same in 32 bit counters |
| PtpClock.TickKeeps | src/hardware/devnp/mx6x/event.c:142-149 | while no interrupt waits a quarter second the counter and flag stay in phase with the clock, or one interrupt behind |
| PtpClock.HandlersKeep | src/hardware/devnp/mx6x/event.c:142-216 | the seconds and half-second handlers bring them back in phase |
| PtpClock.RecentCaptureExact | src/hardware/devnp/mx6x/ptp.c:261-298 | in every state in phase a capture less than 250 ms old gets its true second |
| PtpClock.OlderCaptureWrong | src/hardware/devnp/mx6x/ptp.c:277-298 | a capture exactly 250 ms old can get the wrong second |
| PtpClock.ReadingsTrue | src/hardware/devnp/mx6x/ptp.c:456-506 | in every run of time, interrupts serviced within a quarter second and readings, every reading is the true time, and readings never decrease |
| PtpClock.ReadAfterSetIff | src/hardware/devnp/mx6x/ptp.c:517-531 | a reading right after setting returns the time set exactly when the half-second flag does not contradict it |
| PtpClock.InPhaseAfterSetIff | src/hardware/devnp/mx6x/ptp.c:517-531 | after setting, the clock is in phase exactly when the flag, or the half-second interrupt pending, agrees with the new nanoseconds and no handler that has read the seconds event waits for the lock |
| PtpClock.HandlerAfterSet | src/hardware/devnp/mx6x/event.c:113-149 | such a handler then counts a second too many, though the flag agreed |
| PtpClock.SetReadsLate | src/hardware/devnp/mx6x/ptp.c:517-531 | set to a tenth of a second with the flag up, the clock reads one second late |
| PtpClock.Timer.Pass | src/hardware/devnp/mx6x/event.c:142-216 | the register alone tells which interrupt the passing of time raises |
| PtpClock.Timer.SecondInterrupt | src/hardware/devnp/mx6x/event.c:142-149 | a handler that has read the event counts a second and drops the flag, keeping phase |
| PtpClock.Timer.HalfInterrupt | src/hardware/devnp/mx6x/event.c:197-216 | the half-second interrupt raises the flag, keeping phase |
| PtpClock.Timer.SecondsFor | src/hardware/devnp/mx6x/ptp.c:277-298 | the seconds recorded with a capture less than 250 ms old are those of the capture |
| PtpClock.Timer.GetCount | src/hardware/devnp/mx6x/ptp.c:456-506 | reading the clock returns the true time, so readings never decrease |
| PtpClock.Timer.SetCount | src/hardware/devnp/mx6x/ptp.c:517-531 | setting writes the time; the timer stays valid exactly under the condition on the flag |
| PtpMessage.CarriedIsFound | src/hardware/devnp/mx6x/ptp.c:160-248 | every PTP message in the Annex D or Annex F encapsulation is found at its offset |
| PtpMessage.FoundIsCarriedIff | src/hardware/devnp/mx6x/ptp.c:160-248 | what is found is a PTP message exactly when, for IP, the version, header length and fragmentation fields that are not checked are in order |
| PtpMessage.FoundIsEventIff | src/hardware/devnp/mx6x/ptp.c:151-248 | every event message is found; what is found is one exactly when those parts are in order and the message type is below 4 |
| PtpMessage.AnnounceIsFound | prebuilt/usr/include/netdrvr/ptp.h:33-44 | an Announce message, a general one, is taken for an event message |
| PtpMessage.LaterFragmentIsFound | src/hardware/devnp/mx6x/ptp.c:202-236 | a later IP fragment whose data spell the port is taken for an event message |
| PtpMessage.OnlyMbuf | src/hardware/devnp/mx6x/ptp.c:189-191 | the header at an offset lies in one mbuf exactly when it fits behind the cursor there |
| PtpMessage.Walk | src/hardware/devnp/mx6x/ptp.c:185-188 | the cursor walk ends, in bounds, at the byte with the given offset |
| PtpMessage.IsEventMessage | src/hardware/devnp/mx6x/ptp.c:160-248 | over any chain with contiguous headers: true exactly when the flat packet carries a message whose header lies in one mbuf, and then the cursor is at that header |
| PtpMessage.InDatagram | src/hardware/devnp/mx6x/ptp.c:199-240 | the same for the UDP case, through three walks |
| PtpStamps.AnswerUnique | src/hardware/devnp/mx6x/ptp.c:392-403 | what a search returns is determined by what was recorded |
| PtpStamps.FindsNewestIff | src/hardware/devnp/mx6x/ptp.c:392-403 | with a repeated key the newest record is found exactly when the write index came round to 0 after every older one kept |
| PtpStamps.FindsOlder | src/hardware/devnp/mx6x/ptp.c:392-403 | two records with one key in a fresh table: the older is found |
| PtpStamps.FaithfulMap | src/hardware/devnp/mx6x/ptp.c:384-404 | with distinct recent keys a search returns exactly the record of its key, and nothing for any other key but the blank one |
| PtpStamps.BlankFoundIff | src/hardware/devnp/mx6x/ptp.c:687-690 | the blank key is found, unrecorded, exactly while a slot is unused |
| PtpStamps.KeyOfFields | src/hardware/devnp/mx6x/ptp.c:263-274 | of a header built field by field the key has the message type, sequence number, port and identity, and it is recorded exactly if its version is 2 |
| PtpStamps.HeaderHasFields | prebuilt/usr/include/netdrvr/ptp.h:46-60 | every 34 bytes are such a header |
| PtpStamps.RecordedIsFound | src/hardware/devnp/mx6x/ptp.c:269-301 | a search for the type, sequence number, port and identity of a message just recorded finds its timestamp, if no other record kept has the same four |
| PtpStamps.OthersStay | src/hardware/devnp/mx6x/ptp.c:392-403 | a search that differs in any of the four finds what it found before, unless that was overwritten |
| PtpStamps.Table.Add | src/hardware/devnp/mx6x/ptp.c:261-301 | a message whose header has version 2 is appended to the history under its type, sequence number, port and identity, any other leaves it; the table shows the history's end |
| PtpStamps.Table.Lookup | src/hardware/devnp/mx6x/ptp.c:384-404 | the search returns the answer that the history determines |
| PtpStamps.Table.Clear | src/hardware/devnp/mx6x/ptp.c:687-690 | clearing forgets the history though the index stays |
| PtpCompensation.NeverTooSmall | src/hardware/devnp/mx6x/ptp.c:583-587 | the offset of a candidate is never below the one asked for, so the subtraction does not wrap |
| PtpCompensation.GainsEnough | src/hardware/devnp/mx6x/ptp.c:578-596 | below the clock frequency the selected pair has a positive period and gains at least comp and less than comp + comp/period per second |
| PtpCompensation.NoneNearer | src/hardware/devnp/mx6x/ptp.c:582-596 | no other correction up to an increment is nearer by a nanosecond per second |
| PtpCompensation.IgnoredIff | src/hardware/devnp/mx6x/ptp.c:561-566 | a request is ignored exactly from frequency * (frequency / 2 + 1) on |
| PtpCompensation.TrapsIff | src/hardware/devnp/mx6x/ptp.c:555-584 | a request divides by zero if and only if it is not ignored and is at least the clock frequency plus two |
| PtpCompensation.TrapHappens | src/hardware/devnp/mx6x/ptp.c:578-584 | it happens at 125 MHz |
| PtpCompensation.NotTrapping | src/hardware/devnp/mx6x/ptp.c:563-584 | otherwise nothing overflows 32 bits and no division is by zero |
| PtpCompensation.OneOverSelectsNothing | src/hardware/devnp/mx6x/ptp.c:588-596 | frequency + 1, unless ignored, selects a correction period of zero |
| PtpCompensation.Clock.SetCompensation | src/hardware/devnp/mx6x/ptp.c:546-608 | resets, ignores, traps or programs the first candidate of least error, each exactly when the request calls for it |
| PtpCompensation.Clock.Search | src/hardware/devnp/mx6x/ptp.c:580-596 | the loop with early exit returns the first candidate of least error |
| AvbShaper.ValidIdleSlope | src/hardware/devnp/mx6x/transmit.c:508-534 | the result is the least legal slope not below the argument |
| AvbShaper.LeastIsProgrammed | src/hardware/devnp/mx6x/transmit.c:606-614 | below three quarters of the port it is the least legal slope that comes within one of 512*q/(port-q), and at most 1536 |
| AvbShaper.EnoughIff | src/hardware/devnp/mx6x/transmit.c:606-614 | it grants the full share unless the rounded-down quotient is itself legal and short |
| AvbShaper.ShareFallsShort | src/hardware/devnp/mx6x/transmit.c:606-614 | 201 of 1000 Mbit/s get less than their share |
| AvbShaper.WideOpenIsReached | src/hardware/devnp/mx6x/transmit.c:597-605 | the slope of a refused request is that of the largest requests granted |
| AvbShaper.MegabitsCoverIff | src/hardware/devnp/mx6x/transmit.c:584-592 | the conversion covers a request only within the rounding of 1024 for 1000, never beyond 42 * 1024 kbit/s |
| AvbShaper.Shaper.SetTxBandwidth | src/hardware/devnp/mx6x/transmit.c:569-625 | link down changes nothing, three quarters or more opens both shapers with EINVAL, anything less programs both slopes |
| BaudSearch.DivisorWrapsIff | src/hardware/devc/sermx1/tto.c:416-417 | the estimate's divisor wraps around in 32 bits exactly for numerators up to 3, and is never zero |
| BaudSearch.NumeratorFitsIff | src/hardware/devc/sermx1/tto.c:412-413 | the numerator lies in 1..10000 exactly when 16*baud is at most the clock rounded up to a multiple of 10000 |
| BaudSearch.NumeratorsFit | src/hardware/devc/sermx1/tto.c:372-413 | with a clock of at least 16*baud every divider tried has its numerator in 1..10000 |
| BaudSearch.RateBounds | src/hardware/devc/sermx1/tto.c:412-446 | with c = ceil(ref/10000) the resulting rate lies between baud - baud/c and baud + c/16 |
| BaudSearch.EstimateBounds | src/hardware/devc/sermx1/tto.c:415-417 | without wrap-around the estimate is the rate rounded up, to a part in a hundred thousand |
| BaudSearch.MissFits | src/hardware/devc/sermx1/tto.c:385-419 | every error fits 32 bits below the start value, so the first candidate is always accepted |
| BaudSearch.LargestIs | src/hardware/devc/sermx1/tto.c:377-383 | the search starts from the largest divider up to 7 that leaves sixteen times the rate, or from 1 |
| BaudSearch.Search | src/hardware/devc/sermx1/tto.c:372-446 | the pair returned is consistent and has the least error over all dividers, the largest divider on ties, early exit included |
| BaudSearch.NoWrapIff | src/hardware/devc/sermx1/tto.c:377-417 | no divider's estimate wraps around if and only if 16*baud exceeds three times ceil(clk/10000) |
| BaudSearch.NearlyNearest | src/hardware/devc/sermx1/tto.c:410-433 | under that condition no divider gives a rate nearer than the chosen one by more than the estimates' rounding |
| BaudSearch.SlowRateMissed | src/hardware/devc/sermx1/tto.c:416-433 | at 96 MHz and 300 baud the wrap-around hides divider 6, which is exact, and divider 7 at 343 baud is chosen |
| BaudSearch.DividerRoundTrip | src/hardware/devc/sermx1/tto.c:38 | the register field stands for the divider chosen |
| CanReceive.BurstKeepsNewest | src/hardware/can/mx6x/canmx6x.c:274-336 | any burst leaves the newest messages that fit |
| CanReceive.QueueIsNewest | src/hardware/can/mx6x/canmx6x.c:274-336 | after any run of receptions and reads, with any number of elements held by clients at any time, the queue holds the newest arrivals in order, and what was read and is queued are arrivals in order |
| CanReceive.LosslessIff | src/hardware/can/mx6x/canmx6x.c:274-336 | nothing is dropped if and only if each arrival finds fewer unread messages than elements not held; then reads followed by the queue are the arrivals |
| CanReceive.Mailbox.Receive | src/hardware/can/mx6x/canmx6x.c:274-337 | one reception refines the FIFO that drops its oldest; it fails, changing nothing, exactly when clients hold every element |
| CanReceive.Mailbox.NextElement | src/hardware/can/mx6x/canmx6x.c:274-286 | the element used is free, or that of the oldest message, and nowhere else |
| CanReceive.Mailbox.Fetch | src/hardware/can/mx6x/canmx6x.c:274-337 | a read in one step returns the oldest message and frees its element |
| CanReceive.Mailbox.Take | src/hardware/can/mx6x/canmx6x.c:274-337 | an interrupted read holds the element, whose message receptions leave alone |
| CanReceive.Mailbox.UnreadAreNewest | src/hardware/can/mx6x/canmx6x.c:274-337 | the same of every execution of the mailbox |
| CanTransmit.StepKeeps | src/hardware/can/mx6x/canmx6x.c:350-417 | every step of thread and handler keeps flag, order and elements right |
| CanTransmit.BetweenCalls | src/hardware/can/mx6x/canmx6x.c:350-417 | after any run, between calls: flag up iff a frame is in flight, waiting frames only behind one in flight, frames in order none lost, all elements accounted for |
| CanTransmit.NeverOverwritten | src/hardware/can/mx6x/canmx6x.c:407-413 | the mailbox is empty whenever the thread puts a frame there |
| CanTransmit.Drains | src/hardware/can/mx6x/canmx6x.c:369-383 | interrupts alone send every queued frame and leave the transmitter as new |
| CanTransmit.InterleavedHandlerStrands | src/hardware/can/mx6x/canmx6x.c:369-383 | were the handler not one step, a frame queued before the flag is cleared would be stranded |
| CanTransmit.Transmitter.Interrupt | src/hardware/can/mx6x/canmx6x.c:369-383 | the handler sends the next frame or ends transmission |
| CanTransmit.Transmitter.Transmit | src/hardware/can/mx6x/canmx6x.c:401-417 | interrupted between any two of its steps any number of times, the call ends with frames waiting only behind one in flight and nothing lost or reordered |

## Left out

Assumptions of the model, and what it does not capture:

- One ring object stands for one hardware queue; the offset of a queue in the shared arrays, and the statistics updated when an index wraps, are not modelled.
- In the doorbell loop, finding the doorbell down and ringing it is one step; the engine runs between the turns. The errata ERR006358 and ERR007885 that the loop works around are not modelled, and the transmit interrupt may come at any time in `TxMachine`. The interface goes up and down only between calls, since both hold the transmit lock.
- Each read-modify-write of a descriptor's status is one access, and so are the writes with which the reaper clears one descriptor.
- The engine writes a descriptor back only until it is reaped, and releases descriptors in ring order.
- Packets handed to the driver carry at least one byte (an empty one would dereference a null pointer in `mx6q_tx`).
- The timestamp request is decided by a predicate on the packet, supplied from outside (`TxIntake.Env`); `PtpMessage` is the model of that test by itself.
- Timestamps collected while reaping are parameters of `PtpStamps.Table.Add`, as are the seconds that go with those read while receiving.
- Seconds are kept as 32 bit unsigned numbers; the signed field of `ptp_time_t` in which they are returned, and its sign change in 2038, are not modelled. Waiting for the timer's capture bit is one step.
- The engine completes a finite number of descriptors during a call of `RxRing.Ring.Receive`, so that the polling loop ends. `RxWakeup`, `RxControl` and `RxEvents` describe the threads around it, not the ring itself.
- The 1722 test reads the first 18 bytes of a packet's first mbuf, which the code takes for granted; frames are at least that long. The receive queue has room for at least one packet in `RxWakeup`.
- In `RxWakeup` an enabled interrupt may be raised at any time; `RxEvents` models the event bit and the engine's doorbell, for one class with the interface up, counting frames of one descriptor each; `RxRing` leaves the doorbell out.
- `TxRestart` counts packets, frames and slots, a frame taking one slot; an engine that is awake works on until it has finished. Direct sends on the same queue exist only in builds with one transmit queue; with three, the runs without that step remain. The transmit interrupt is not delayed by receive events.
- The copies made by `m_dup` have their data on 8 byte boundaries, as new clusters do, and all the bytes of the original; a copy made by `mx6q_defrag` is not its original (`TxIntake.Faithful`); that it is new among all packets of the queue is a hypothesis of `TxIntake.QueuedOnce` only.
- RxControl.Control.ProcessQueue: the others take a finite number of steps during a call, and the receive thread holds the mutex for one step.
- PtpMessage.IsEventMessage: the Ethernet, IP and UDP headers each lie within one mbuf, as the casts in the code require.
- PtpCompensation.Clock.SetCompensation: the two increments that share one register are two fields here, which they are as long as each fits its bits; `mx6q_ptp_cal` and the option that sets the frequency are outside, and appear as `Config`.
- BaudSearch.Search: the type of the baud rate field is not in the repository; rates are positive with 16 times the rate below 2^31, and the clock is positive and below 2^32 - 10000.
- The queue primitives of libcan and the client side of reading and writing are not in the repository; `CanReceive.Mailbox.Fetch`, `Take`, `Return` and `CanTransmit.Transmitter.Queue` stand for them.
- The CAN handler acknowledges all captured mailbox flags after servicing one mailbox; the models describe serviced receptions and transmissions of one mailbox only, with the handler as one step.
- Left out altogether: PHY and MDIO code, link callbacks, media ioctls, option parsing, multicast hashing, the one-time AVB class setup of `mx6q_set_tx_bw`, BPF, cache operations, logging, `sqi.c`, `stats.c`, the UART's DMA and its other settings, the SD/MMC driver.
