# AmorphOS in Dafny

AmorphOS lets several applications share one FPGA: hardware multiplexes their memory, register and
PCIe traffic, and a host daemon decides which application runs in which slot of which FPGA. This
project models the parts of it where sharing can go wrong and proves that it does not.

* **The memory system** (`Ami*`). Address translation, the per-channel mergers, the channel
  arbiters, in-order channel memories and the response mergers are one synchronous machine over
  any number of applications, ports and channels and any queue depths. Streams of everything that
  passed each wire give an invariant of every reachable state; from it follow in-order,
  exactly-once delivery of each read's own answer, fair turns, freedom from deadlock and from
  blocking across applications, an answer to every read within bounded time, and private memory: a
  port sees a sequential flat memory of its own.
* **The block buffer** (`BlockBuffer`). The write-back buffer cannot be told from a flat memory.
* **The host scheduler** (`HostModel`, `HostTheorems`, `HostScenarios`, `HostDaemon`). Sessions,
  slot tables and images, as values and as the daemon's objects; the two indices stay inverse,
  scheduling always succeeds, and whom it disturbs is said exactly.
* **Register accesses** (`AxiLite*`, `SoftReg`, `HostRegisters`, `HostRoundTrip`, `HostProgress`,
  `HostCompletes`). From the host's 64-bit call through pairs of 32-bit AXI-Lite beats to
  the application and back: only calls arrive, all calls arrive, and every client can be served.
* **Protocol pieces** (`Axi4Paths`, `Pcie*`, `RouteTree`, `MemDrive*`, `Dram`, `Arbiter*`, `Fifo`).
  Credits and progress of the AXI4 paths, whole messages in fair turns on the shared PCIe output, the
  route tree at any depth, exactly when the memory driver's write-then-read check is right, bounded
  wait in the arbiter tree, the ring buffer under everything.

A hardware module is a value of its registers and a function `Next` for one clock edge; wires are
functions of registers and inputs. Where the source is a clocked unit or an object there is also a
class whose fields are its registers, with methods tied to that function by their postconditions.
Queues are bounded sequences, which the ring buffer is proved to implement. A wire with a valid bit
is an `Option`; queues only ever hold valid entries, so their valid bits are implied.

Findings, where code and expectation differ:

* With a single memory channel the interleave drops an address bit, so two addresses share a cell
  (`AmiTypes.InterleaveIsInjective`).
* The search for a slot can overlook a free matching slot and evict a session
  (`HostTheorems.EvictsUnlessVisible` says exactly when, `HostScenarios.FreeSlotOverlooked` is a run
  from boot where it does).
* The victim of an image replacement is always the last FPGA, because the load to beat is never
  lowered (`HostDaemon.AosHost.FindVictim`). It is the least loaded one, and disturbs the fewest
  sessions, exactly when its own load is the least (`HostTheorems.ReplacementCost`);
  `HostScenarios.MoreLoadedIsReplaced` is a run from boot where it is not.
* The block buffer drops a response when its queue is full: it is faithful exactly until then
  (`BlockBuffer.RefinesFlatMemory`). Responses still owed are safe exactly when no more are unread
  than the queue holds (`BlockBuffer.SafeIffUnreadFit`); `BlockBuffer.OneReadTooMany` is the run
  that loses one.
* A PCIe packet for an application that does not exist holds up all packets behind it for good
  (`Pcie.HeldUp`). Such packets exist exactly when the reserved bits can name more applications
  than there are (`Pcie.StraySlots`), as with a single application (`Pcie.StrayPacket`).
* The memory driver counts errors although nothing is wrong when requests of its two ports share
  an address; it never does if and only if all addresses are distinct
  (`MemDriveExact.ExactlyWhenDistinct`, `MemDriveExact.EqualStartsClash`).

## Model

| member | source | states |
|---|---|---|
| Fifo.SoftFIFO.Clock | src/fpga/src/SoftFIFO.sv:35-74 | one clock edge of the ring buffer is one edge of a bounded queue, oldest element first, for any depth |
| Fifo.SoftFIFO.Outputs | src/fpga/src/SoftFIFO.sv:31-33 | full and empty say what the queue holds; the visible head is its oldest element |
| Fifo.FirstInFirstOut | src/fpga/src/SoftFIFO.sv:54-74 | over every pattern of simultaneous writes and reads, what was taken in is what was given out followed by the contents |
| Fifo.TakesAndGives | src/fpga/src/SoftFIFO.sv:31-74 | what is written is taken exactly while fewer are inside than the queue holds, what is read is given exactly while any are |
| Fifo.RingWrite | src/fpga/src/SoftFIFO.sv:47-53 | writing at the write pointer appends and overwrites nothing held |
| Arbiter.OneGrant | src/fpga/src/RRWCArbiter.sv:18-150 | exactly one requester is granted when there is one and the tree is enabled, none otherwise |
| Arbiter.PassedOver | src/fpga/src/TwoInputArbiter.sv:39-54 | a requester that is not granted loses rank, whatever the others do |
| Arbiter.NoStarvation | src/fpga/src/RRWCArbiter.sv:18-150 | a request held up is granted within 2^d cycles from any state of a complete tree of depth d |
| Arbiter.BoundIsTight | src/fpga/src/RRWCArbiter.sv:18-150 | the bound is met: with everybody asking after reset the last requester waits the full 2^d cycles |
| ArbiterNodes.TwoInputArbiter.Clock | src/fpga/src/TwoInputArbiter.sv:28-54 | the node's register after one edge |
| ArbiterNodes.FourInputArbiter.Clock | src/fpga/src/FourInputArbiter.sv:16-71 | three nodes wired together grant and step as the tree of depth two |
| ArbiterNodes.RRWCArbiter.Clock | src/fpga/src/RRWCArbiter.sv:18-76 | two four-input trees under one node grant and step as the tree of depth three |
| AmiTypes.InterleaveIsInjective | src/fpga/src/AddressTranslate.sv:161-176 | channel and local address determine the physical address if and only if there is more than one channel |
| AmiTypes.LocalJoin | src/fpga/src/AddressTranslate.sv:161-176 | every channel and local address come from a physical address |
| AmiTypes.Isolation | src/fpga/src/AppLevelTranslate.sv:14-66 | two applications' in-region addresses share a cell of a channel if and only if they are the same application and address |
| AmiTypes.RegionsAre | src/fpga/src/AppLevelTranslate.sv:14-66 | the region sizes: 8 GiB on F1, halved per doubling of memory systems, 8 GiB shared out on Catapult |
| AmiTypes.PhysicalWraps | src/fpga/src/AppLevelTranslate.sv:14-66 | the translation is a sum modulo 2^64, exact while it fits |
| AmiTypes.PhysicalIsSum | src/fpga/src/AppLevelTranslate.sv:14-66 | the 64-bit sum of base and address never wraps within a region |
| AmiTypes.LocalBound | src/fpga/src/AddressTranslate.sv:161-176 | with four channels local addresses stay below 16 GiB |
| AmiFlow.InvStep | src/fpga/src/AmorphOSMem.sv:54-196 | one clock edge of the whole memory system keeps the stream equations of every queue |
| AmiFlow.TagFlowStep | src/fpga/src/RespMerge.sv:180-286 | the tag queue is the reads forwarded whose responses have not been merged, and the output follows its order |
| AmiFlow.ReturnFlowStep | src/fpga/src/RespMerge.sv:61-68 | per channel, what was routed to a port is what it merged and what waits there |
| AmiDelivery.WaitingTagsAreInFlight | src/fpga/src/RespMerge.sv:187-286 | in every reachable state a port's tags for a channel are its responses waiting, then its tags at that arbiter, then its reads in that merger |
| AmiDelivery.InOrderExactlyOnce | src/fpga/src/ChannelArbiter.sv:269-386 | every accepted read is answered once, in order, at its port; none is lost inside |
| AmiReads.EachReadItsAnswer | src/fpga/src/RespMerge.sv:187-286 | the k-th response answers the k-th read and no other: its value is that of the cell at the place of that very read in its channel's order |
| AmiProgress.NeverStuck | src/fpga/src/AmorphOSMem.sv:54-196 | in every reachable state with work anywhere, some entry advances as long as ports take and memories serve |
| AmiProgress.EverythingIsAnswered | src/fpga/src/AmorphOSMem.sv:54-196 | after any run, within a bounded number of cycles without new requests, nothing is left inside and every accepted read has its answer |
| AmiDelivery.NoCrossAppBlocking | src/fpga/src/ChannelArbiter.sv:172-175 | a routed response is taken in the same cycle, at most one waits per arbiter, memory is never refused, even if ports are never drained |
| AmiFairness.PortIsServed | src/fpga/src/ChannelMerge.sv:74-101 | over every run, a port that keeps asking for a channel is served before its merger has taken as many requests as there are ports |
| AmiFairness.AppIsServed | src/fpga/src/ChannelArbiter.sv:166-201 | over every run, an application whose oldest request can be taken is served before the channel arbiter has taken as many requests as there are applications |
| AmiFairness.PortHandshake | src/fpga/src/AddressTranslate.sv:134-155 | a port is heard exactly in the cycles in which it is enabled and there is room, and given a response exactly when it is enabled and takes one |
| AmiFairness.RequestsMove | src/fpga/src/AddressTranslate.sv:163-191 | no request waits without need: each stage takes one exactly when it has room and one is ready for it |
| AmiFairness.ResponsesMove | src/fpga/src/RespMerge.sv:187-286 | no operation or response waits without need |
| AmiFairness.MemorySees | src/fpga/src/ChannelArbiter.sv:166-201 | the channel memory sees what the arbiter took, field by field, in order |
| AmiMemory.ChannelsAreSequential | src/fpga/src/ChannelArbiter.sv:166-201 | each channel serves one interleaving of the ports' requests in their own order, and a port's responses are, value by value, what it answers |
| AmiMemory.PrivateMemory | src/fpga/src/AddressTranslate.sv:161-205 | a port whose region nobody else writes receives the answers of a sequential run of its own requests on its own flat memory |
| AmiUnits.AddressTranslate.Outputs | src/fpga/src/AddressTranslate.sv:163-191 | the oldest translated request appears on the line of its channel only, a read only if there is room for its tag |
| AmiUnits.AddressTranslate.Clock | src/fpga/src/AddressTranslate.sv:134-155 | accepting, translating and forwarding in one edge |
| AmiUnits.ChannelMerge.Clock | src/fpga/src/ChannelMerge.sv:74-101 | one port's request per cycle moves into the queue, in round-robin turns |
| AmiUnits.ChannelArbiter.Clock | src/fpga/src/ChannelArbiter.sv:166-201 | one application's request per cycle moves in, with a tag if it reads; response and tag leave together |
| AmiUnits.ChannelArbiter.RouteResponse | src/fpga/src/ChannelArbiter.sv:355-386 | the oldest response is labelled with the oldest tag |
| AmiUnits.RespMergeUnit.Clock | src/fpga/src/RespMerge.sv:187-286 | the channel named by the oldest tag feeds the output queue |
| BlockBuffer.CoherentStep | src/fpga/src/BlockBuffer.sv:340-482 | a clean buffer equals the memory block, a pending one awaits exactly that block |
| BlockBuffer.AbsStep | src/fpga/src/BlockBuffer.sv:340-482 | fetches and evictions leave the abstract memory unchanged; a request served changes only its word |
| BlockBuffer.RefinesFlatMemory | src/fpga/src/BlockBuffer.sv:340-482 | in every run the answers are those of a flat memory, and all of them reach the application if and only if no response was dropped |
| BlockBuffer.AnswersInOrder | src/fpga/src/BlockBuffer.sv:425-440 | with at most as many unread responses as the queue holds, every read returns the last value written, in request order |
| BlockBuffer.ReadsReturnWrites | src/fpga/src/BlockBuffer.sv:340-482 | a read returns the very 64 bits of the last write accepted before it to its word, or what memory held if there was none |
| BlockBuffer.ServedAtOnce | src/fpga/src/BlockBuffer.sv:414-478 | a request to the block held is served in that cycle without memory access; another block is fetched after the one held is written back if it was changed |
| BlockBuffer.SafeIffUnreadFit | src/fpga/src/BlockBuffer.sv:425-467 | while nothing has been lost, no continuation without new requests loses a response if and only if no more responses are unread than the queue holds |
| BlockBuffer.OneReadTooMany | src/fpga/src/BlockBuffer.sv:432-437 | the run of one more untaken read than the queue holds loses exactly one response, and one read fewer loses none |
| BlockBuffer.BlockBuffer.Clock | src/fpga/src/BlockBuffer.sv:36-482 | the sector registers, written in place, and the state machine after one edge |
| HostModel.BestFittingFits | src/host/include/aos_daemon.h:999-1025 | the replacement image holds the application and no fitting image has more slots |
| HostModel.BestFittingIsFirst | src/host/include/aos_daemon.h:1009-1021 | among fitting images with the most slots the first is chosen |
| HostTheorems.BindKeeps | src/host/include/aos_daemon.h:923-936 | binding keeps the two indices inverse |
| HostTheorems.UnbindKeeps | src/host/include/aos_daemon.h:938-950 | so does unbinding |
| HostTheorems.SwitchKeeps | src/host/include/aos_daemon.h:961-997 | loading an image keeps them inverse if and only if no session is bound on that FPGA |
| HostTheorems.InitiateKeeps | src/host/include/aos_daemon.h:441-467 | a session is created if and only if some image holds its application |
| HostTheorems.InitiateCreates | src/host/include/aos_daemon.h:441-467 | the id answered is new and names an unbound session of the application; every other session and every slot is unchanged |
| HostTheorems.IdsAreDistinct | src/host/include/aos_daemon.h:441-467 | over every run of commands no id is answered twice |
| HostTheorems.EndSessionKeeps | src/host/include/aos_daemon.h:469-489 | ending a known session frees its slot, forgets it and touches no other |
| HostTheorems.FoundUnlessHidden | src/host/include/aos_daemon.h:1135-1200 | the search finds a free matching slot if and only if one is not overlooked |
| HostTheorems.SchedulingSucceeds | src/host/include/aos_daemon.h:1085-1255 | scheduling a known unbound session whose application is in some image always binds it to a slot built for it |
| HostTheorems.SchedulingDisturbs | src/host/include/aos_daemon.h:1112-1252 | the sessions unbound are none, the one whose slot is taken over, or all on the last FPGA; every other is untouched |
| HostTheorems.IdleMeansNoEviction | src/host/include/aos_daemon.h:1112-1200 | with an FPGA without image or session nobody is unbound and the new session lands on an FPGA that had load 0 |
| HostTheorems.EvictsUnlessVisible | src/host/include/aos_daemon.h:1135-1252 | on busy FPGAs somebody is evicted if and only if every free matching slot is overlooked |
| HostTheorems.LoadIsSessions | src/host/include/aos_daemon.h:1040-1051 | the load of an FPGA is the number of sessions bound there |
| HostTheorems.ReplacementCost | src/host/include/aos_daemon.h:1213-1233 | when no busy FPGA has a slot for the application, the sessions unbound are those of the last FPGA, as many as its load; that is the fewest possible if and only if its load is the least |
| HostScenarios.FreeSlotOverlooked | src/host/include/aos_daemon.h:1185-1190 | a run from boot to a state where a free matching slot exists and a session is evicted all the same |
| HostScenarios.MoreLoadedIsReplaced | src/host/include/aos_daemon.h:1219-1228 | a run from boot to a state where the FPGA with one session is kept and the one with two is emptied |
| HostTheorems.BindingIsABijection | src/host/include/aos_daemon.h:441-489 | after every run of commands a session is at a slot exactly when that slot points to it, and slot tables are those of the loaded images |
| HostTheorems.ParseKeeps | src/host/scheduler/aos_scheduler.cpp:12-38 | adding images keeps the library free of duplicates and loses none |
| HostTheorems.ParseKnows | src/host/scheduler/aos_scheduler.cpp:12-38 | every image offered is known afterwards |
| HostTheorems.ParseAdds | src/host/scheduler/aos_scheduler.cpp:12-38 | an image added is the first offered with an id the library did not have |
| HostDaemon.AppSession.BindToSlot | src/host/scheduler/aos_app_session.cpp:49-53 | the session says where it is |
| HostDaemon.AppSession.UnbindFromSlot | src/host/scheduler/aos_app_session.cpp:43-47 | the session says it is nowhere |
| HostDaemon.AosScheduler.ParseImages | src/host/scheduler/aos_scheduler.cpp:12-38 | the library grows by the images whose id is new |
| HostDaemon.AosScheduler.GetImageByAgfi | src/host/scheduler/aos_scheduler.cpp:105-114 | an image with that id if the library has one |
| HostDaemon.AosScheduler.ConvertImageToAppTuples | src/host/scheduler/aos_scheduler.cpp:205-220 | each application of the image with its number of slots |
| HostDaemon.AosScheduler.CanImageSatisfyNeed | src/host/scheduler/aos_scheduler.cpp:134-155 | true if and only if the image has enough slots of every application needed |
| HostDaemon.AosScheduler.GetFittingImageIdx | src/host/scheduler/aos_scheduler.cpp:157-169 | the first fitting image, or -1 |
| HostDaemon.AosScheduler.GetAllFittingImages | src/host/scheduler/aos_scheduler.cpp:171-184 | all fitting images and no others, in library order |
| HostDaemon.AosScheduler.GetImageIdx | src/host/scheduler/aos_scheduler.cpp:186-203 | the first image with that id, or -1 |
| HostDaemon.AosScheduler.GetSlotAppIdMap | src/host/scheduler/aos_scheduler.cpp:222-238 | slot ids to applications, later entries winning |
| HostDaemon.AosScheduler.AppIdExists | src/host/scheduler/aos_scheduler.cpp:240-248 | true if and only if some image holds the application |
| HostDaemon.AosScheduler.LoadImage | src/host/scheduler/aos_scheduler.cpp:51-81 | the FPGA's current image is the one with that index; larger indices are ignored |
| HostDaemon.AosHost.BindAppToSlot | src/host/include/aos_daemon.h:923-936 | slot and session point to each other |
| HostDaemon.AosHost.UnbindAppFromSlot | src/host/include/aos_daemon.h:938-950 | slot and session let go of each other; an empty slot stays as it is |
| HostDaemon.AosHost.UnbindAllApps | src/host/include/aos_daemon.h:952-959 | every slot of the FPGA is emptied |
| HostDaemon.AosHost.SwitchImage | src/host/include/aos_daemon.h:961-997 | fresh slot tables of the new image, interfaces on |
| HostDaemon.AosHost.SelectImage | src/host/include/aos_daemon.h:1009-1021 | the first fitting image with the most slots |
| HostDaemon.AosHost.CalcFPGALoad | src/host/include/aos_daemon.h:1040-1051 | the number of slots in use |
| HostDaemon.AosHost.FindSlot | src/host/include/aos_daemon.h:1135-1200 | the nested search loops find what the scan of the model finds |
| HostDaemon.AosHost.FindVictim | src/host/include/aos_daemon.h:1219-1228 | the victim is the last FPGA |
| HostDaemon.AosHost.HandleScheduling | src/host/include/aos_daemon.h:1085-1255 | the objects after scheduling are the scheduled state of the model; when the session can be scheduled the call succeeds and the indices stay inverse; a dummy host changes nothing |
| HostDaemon.AosHost.HandleInitiateSession | src/host/include/aos_daemon.h:441-467 | a new session object with a fresh id, for a known application |
| HostDaemon.AosHost.HandleEndSession | src/host/include/aos_daemon.h:469-489 | the session's slot is freed and the session forgotten |
| Arithmetic.CountIs | src/system/f1/src/AXIL2SR.sv:196-211 | a 32-bit counter equals what is owed less what is paid, modulo 2^32, and never lets more be paid than owed |
| AxiLite.Halves | src/system/f1/src/AXIL2SR.sv:218 | joining and splitting 64 bits are inverse |
| AxiLite.CombineIs | src/system/f1/src/AXIL2SR.sv:218 | the second half counts 2^32s, the first one units |
| AxiLite.InvStep | src/system/f1/src/AXIL2SR.sv:75-435 | one clock edge keeps the queues, selects and credits in step with the streams on the five channels |
| AxiLite.Pairing | src/system/f1/src/AXIL2SR.sv:111-218 | the k-th register write is (awaddr[2k], {wdata[2k+1], wdata[2k]}), the k-th register read araddr[2k], under every interleaving |
| AxiLite.NothingDropped | src/system/f1/src/AXIL2SR.sv:75-353 | what was accepted and not sent is still queued |
| AxiLite.WhenReady | src/system/f1/src/AXIL2SR.sv:75-435 | each channel is ready exactly while there is room, and gives exactly while something is owed |
| AxiLite.BeatsAreHalves | src/system/f1/src/AXIL2SR.sv:390-435 | read beats are low then high half of each answer and never outnumber read addresses; write responses never outnumber data beats |
| AxiLite.ReadsFollowWrites | src/system/f1/src/AXIL2SR.sv:316-353 | a read accepted after a whole write is never sent before it |
| AxiLiteBridge.AXIL2SR.Clock | src/system/f1/src/AXIL2SR.sv:75-435 | the registers after one edge |
| AxiLiteBridge.AXIL2SR.Request | src/system/f1/src/AXIL2SR.sv:316-353 | the request offered, writes first |
| SoftReg.RouteIsUnique | src/fpga/src/AmorphOSSoftReg.sv:36-40 | an address is routed to at most one application |
| SoftReg.RoutedByNumber | src/fpga/src/AmorphOSSoftReg.sv:31-49 | address / 8192 % 8 is the application that sees a request, at address % 8192, with its data |
| SoftReg.AnswersTakeTurns | src/fpga/src/AmorphOSSoftReg.sv:55-197 | an answer waiting leaves within as many cycles as there are applications |
| SoftReg.AnswersAreKept | src/fpga/src/AmorphOSSoftReg.sv:55-197 | an answer is queued exactly when its application is enabled and its queue has room |
| SoftReg.AmorphOSSoftReg.Route | src/fpga/src/AmorphOSSoftReg.sv:31-49 | each application sees exactly its own requests, the select bits removed |
| SoftReg.AmorphOSSoftReg.Clock | src/fpga/src/AmorphOSSoftReg.sv:55-197 | answers are queued per enabled application and leave one per cycle |
| HostRegisters.CallRoutes | src/host/include/aos_daemon.h:811-813 | the masked address is routed to the application of that slot and shows it the caller's address |
| HostRegisters.BusAddrIs | src/host/include/aos_daemon.h:811-813 | the bus address is slot * 8192 + address |
| HostRegisters.WritePciBar1 | src/host/include/aos_daemon.h:676-693 | two pokes, low half at the address and high half four bytes on |
| HostRegisters.ReadPciBar1 | src/host/include/aos_daemon.h:695-717 | two peeks, put together as one 64-bit value |
| HostRoundTrip.CallsReachTheirApp | src/host/include/aos_daemon.h:676-717 | whatever is sent is the calls, in order: the k-th request reaches the application in the k-th call's slot, as the same 64-bit write or read, and no other |
| HostProgress.CallsAreSent | src/system/f1/src/AXIL2SR.sv:316-353 | two cycles after the last beat of the first n calls all n have been sent, in order, and nothing but calls |
| HostProgress.EveryCallArrives | src/host/include/aos_daemon.h:676-717 | so each of them has been seen by the application in its slot and by no other |
| HostRoundTrip.ReadsReturnTheAnswer | src/host/include/aos_daemon.h:695-717 | each read returns the 64-bit value its application answered |
| HostProgress.AnswersAreDelivered | src/system/f1/src/AXIL2SR.sv:355-435 | a read answered by its application and with both its addresses in has both its beats at the host three cycles later |
| HostProgress.FinishedReads | src/host/include/aos_daemon.h:695-717 | every read the host has finished returned what its application answered |
| HostCompletes.EveryClientIsServed | src/host/include/aos_daemon.h:676-717 | for every sequence of calls and every choice of answers there is a well-behaved run of at most eight cycles a call that sends exactly the calls and returns exactly those answers |
| Axi4Paths.WritesStayTogether | src/system/f1/src/AMI2AXI4_WrPath.sv:51-111 | k-th address and k-th data beat are the k-th write; the data credit is data queue less address queue, exactly |
| Axi4Paths.DataFollowsAddress | src/system/f1/src/AMI2AXI4_WrPath.sv:169-224 | a data beat is sent strictly after its address |
| Axi4Paths.WriteValidHolds | src/system/f1/src/AMI2AXI4_WrPath.sv:169-224 | address and data VALID and payload stay until READY |
| Axi4Paths.WhatIsOffered | src/system/f1/src/AMI2AXI4_WrPath.sv:169-224 | an address is offered exactly while one granted is unsent, data exactly while fewer were sent than addresses, always the next in order; a write is granted exactly when it fits |
| Axi4Paths.EveryWriteLeaves | src/system/f1/src/AMI2AXI4_WrPath.sv:51-224 | from any state, with both channels ready, all granted addresses and data are sent one cycle later than there is data waiting |
| Axi4Paths.ReadsWaitTheirTurn | src/system/f1/src/AMI2AXI4_RdPath.sv:47-166 | the credit is accepted addresses less accepted data; no data is taken unasked, dropped or reordered |
| Axi4Paths.ReadValidHolds | src/system/f1/src/AMI2AXI4_RdPath.sv:107-130 | address VALID and payload stay until READY |
| Axi4Paths.WhatIsTaken | src/system/f1/src/AMI2AXI4_RdPath.sv:107-166 | data is taken exactly while a read waits for it and there is room, and handed on unchanged |
| Axi4Paths.EveryReadIsAnswered | src/system/f1/src/AMI2AXI4_RdPath.sv:47-166 | from any state, with everybody ready, all granted reads are answered within three cycles a read |
| Axi4Paths.AMI2AXI4_WrPath.Clock | src/system/f1/src/AMI2AXI4_WrPath.sv:51-224 | the write path's registers after one edge |
| Axi4Paths.AMI2AXI4_RdPath.Clock | src/system/f1/src/AMI2AXI4_RdPath.sv:47-166 | the read path's registers after one edge |
| Pcie.TagsComeBack | src/fpga/src/AmorphOSPCIE.sv:229-234 | the slot an application's packet carries leads a packet back to it |
| Pcie.OutStep | src/fpga/src/AmorphOSPCIE.sv:229-368 | one clock edge keeps order, tags and turns of the shared output |
| Pcie.MessagesStayWhole | src/fpga/src/AmorphOSPCIE.sv:289-345 | after a packet that does not end its message comes one of the same application |
| Pcie.NobodyIsPassedOver | src/fpga/src/AmorphOSPCIE.sv:336-349 | an application never gets two messages in a row if another had a packet queued at the switch |
| Pcie.EachAppInOrder | src/fpga/src/AmorphOSPCIE.sv:229-316 | what the shell receives under an application's number is what it handed in, in order, less what is queued |
| PcieProgress.OutTaken | src/fpga/src/AmorphOSPCIE.sv:229-237 | a packet of an enabled application is taken exactly when its queue has room, with its payload and end mark, its slot labelled |
| PcieProgress.WrittenWhen | src/fpga/src/AmorphOSPCIE.sv:320-348 | the application whose turn it is writes exactly when it has a packet and there is room |
| PcieProgress.TurnComes | src/fpga/src/AmorphOSPCIE.sv:336-369 | an application with a packet waiting gets its turn before it has passed as often as there are applications |
| PcieProgress.EveryPacketLeaves | src/fpga/src/AmorphOSPCIE.sv:229-369 | once whole messages are handed in and the shell takes, all packets are with the shell within three cycles a packet and one more |
| Pcie.PacketsReachTheirApp | src/fpga/src/AmorphOSPCIE.sv:92-155 | an application receives the packets addressed to it, in order, none lost |
| PcieProgress.InTaken | src/fpga/src/AmorphOSPCIE.sv:151-154 | a packet of the shell is taken exactly when there is room |
| PcieProgress.ContentsArrive | src/fpga/src/AmorphOSPCIE.sv:92-106 | an application receives payload, end mark and lower slot bits of the packets that name it, one by one |
| PcieProgress.EveryPacketArrives | src/fpga/src/AmorphOSPCIE.sv:92-155 | with nobody full and none astray, all packets arrive within two cycles a packet |
| Pcie.HeadMoves | src/fpga/src/AmorphOSPCIE.sv:92-152 | the oldest packet leaves the shared queue if and only if its application exists and has room, and then enters that application's queue |
| Pcie.StraySlots | src/fpga/src/AmorphOSPCIE.sv:92 | some slot names no application if and only if the reserved bits can name more than there are |
| Pcie.HeldUp | src/fpga/src/AmorphOSPCIE.sv:92-152 | over every continuation a packet for an application that does not exist stays at the head, and nobody receives anything that had not passed before it |
| Pcie.StrayPacket | src/fpga/src/AmorphOSPCIE.sv:92-152 | with one application, after a packet for slot 32 it never receives anything, whatever the shell sends |
| Pcie.AmorphOSPCIE.ClockOut | src/fpga/src/AmorphOSPCIE.sv:229-368 | the output side's registers after one edge |
| Pcie.AmorphOSPCIE.ClockIn | src/fpga/src/AmorphOSPCIE.sv:92-155 | the input side's registers after one edge |
| RouteTree.IndexSplits | src/fpga/src/AmorphOSSoftReg_RouteTree.sv:34-35 | the highest routing bit says which half an application is in |
| RouteTree.Halves | src/fpga/src/AmorphOSSoftReg_RouteTree.sv:204-229 | the root holds at most one request and its halves run on what it passes on |
| RouteTree.RoutesExactly | src/fpga/src/AmorphOSSoftReg_RouteTree.sv:191-237 | in every cycle, at any depth L, an application's wire carries exactly the request of L cycles ago if its bits name the application |
| RouteTree.AppSees | src/fpga/src/AmorphOSSoftReg_RouteTree.sv:230-237 | an application sees its requests only, L cycles late, with address bits 9 to 0 |
| RouteTree.AosSr1To2.Outputs | src/fpga/src/AmorphOSSoftReg_RouteTree.sv:53-78 | a node passes its head to exactly one side |
| RouteTree.AosSr1To2.Clock | src/fpga/src/AmorphOSSoftReg_RouteTree.sv:53-87 | the head leaves every cycle, so nothing is refused |
| MemDrive.InvStep | src/fpga/src/MemDrive_SoftReg.sv:350-543 | one clock edge keeps controller, submission queues, responses and error counters in step with the programs started |
| MemDrive.ExactlyTheScript | src/fpga/src/MemDrive_SoftReg.sv:422-455 | under any backpressure both ports submit, in lockstep, exactly total_subs requests per run, the i-th at (start + (i << delta)) & mask |
| MemDrive.StepsAre | src/fpga/src/MemDrive_SoftReg.sv:338-345 | which word of a program is which: start addresses, count, mask, mode, step and canaries, by example |
| MemDrive.SubmitsWhen | src/fpga/src/MemDrive_SoftReg.sv:428-455 | a request leaves through both ports in every cycle in which both queues have room and some are left |
| MemDrive.WriteThenRead | src/fpga/src/MemDrive_SoftReg.sv:516-543 | over one memory behind both ports, a reading run after a writing run with the same settings ends with both error counters zero and takes total_subs responses per port, if all addresses of both ports are distinct and every earlier writing run was read back or left the other port's addresses alone |
| MemDrive.ClashIsSeen | src/fpga/src/MemDrive_SoftReg.sv:527-539 | if it ends without errors after all writes were performed, all addresses of both ports are distinct |
| MemDriveExact.ExactlyWhenDistinct | src/fpga/src/MemDrive_SoftReg.sv:338-543 | over any memory, every run of a writing program and its read-back that ends reports no error if and only if all addresses of both ports are distinct |
| MemDriveExact.EqualStartsClash | src/fpga/src/MemDrive_SoftReg.sv:338-339 | with the same start address at both ports, and distinct addresses within each, a run ends with an error counted |
| MemDrive.MemDriveSoftReg.Clock | src/fpga/src/MemDrive_SoftReg.sv:309-543 | the driver's registers and program after one edge |
| Dram.ServesInOrder | src/fpga/src/SimSimpleDram.sv:45-103 | requests are served in the order accepted and answered as a sequential memory would, at any pace |
| Dram.PlaceHolds | src/fpga/src/SimSimpleDram.sv:45-103 | a place, chosen by the low ten address bits, holds the low 64 bits of the last write to it |
| Dram.AnswerIs | src/fpga/src/SimSimpleDram.sv:45-103 | each read is answered with what its place held |
| Dram.ServedWhen | src/fpga/src/SimSimpleDram.sv:45-103 | the oldest request is performed as soon as it can be, and one accepted whenever there is room |
| Dram.SimSimpleDram.Clock | src/fpga/src/SimSimpleDram.sv:45-103 | the memory array, written in place, and the request queue after one edge |

## Left out

- The DMA and bulk-data half of daemon and session: unfinished in the source.
- Sockets, process start-up, JSON syntax, PCIe attach and detach, printing and the `fpga-*` tools: input and output; an image is its id and slot applications, loading one sets the current image, attaching sets a flag.
- AmorphOSMem: the composition of the memory units is the step function of `Ami` over banks of unit values; the unit classes are tied to the same edges but no object holds all of them.
- The channel memory of `Ami` is any in-order memory over all addresses that takes and serves requests when it likes; the address truncation of `SimSimpleDram` (modelled in `Dram`) and the independent read and write paths of `AMI2AXI4` (modelled in `Axi4Paths`) are not put behind it.
- The debug mode that disables the interleave.
- Cells of the memory system are named by their exact byte address, which is faithful for accesses aligned to 64-byte lines; overlapping unaligned accesses are not modelled.
- AmiProgress.EverythingIsAnswered: the bound counts one step a cycle and is generous; how many cycles a pipelined machine really needs is not modelled.
- Ports' `size` is carried and returned unchanged; its truncation to 6 bits is not modelled.
- Session ids are unbounded numbers; the 64-bit counter is not wrapped.
- HostDaemon.AosHost.HandleEndSession: needs a known id, because the source goes on with an unknown one after an empty check.
- HostDaemon.AosScheduler.LoadImage: needs an index other than the library's length, because the guard lets that one through to an undefined access.
- HostRoundTrip.CallsReachTheirApp: the host finishes one call before the next, as its blocking calls do, and slots called are enabled applications; applications answer only reads they were sent.
- HostCompletes.EveryClientIsServed: needs address, data and request queues of at least two entries in the bridge, as every configuration has.
- Register responses when several reads are open at once: the source drops answers when a queue is full.
- The response half of the route tree: it drops answers when a node's queue is full.
- AXI-Lite write responses follow the data channel alone, so only the counting law is stated for them.
- Register routing and address tables of boards other than F1 beyond their base table.
- Statistics and cycle counters, the write strobes and response codes, and the constant side signals of AXI.
- MemDrive: the memory may reorder requests of different channels and ports, as the memory system does; cycle stamps and the counters of full queues are not modelled.
- MemDrive.WriteThenRead: an earlier writing run that shares addresses across ports and was not read back is left out, because writes are not acknowledged and may land late.
- The DMA bridges, the extended AXI-Lite bridge, muxes, pin wiring and type packages: unfinished or only easy members.
