# Powersuit: verified models of the suit's hard parts

The powersuit repository is the firmware and orchestrator of a distributed exoskeleton:
limb and flight nodes on CAN, a chest hub that bridges CAN to a Linux orchestrator over SPI,
and a cloud session behind it. This project models the parts whose correctness spans whole
runs and proves what they promise. Everything is Dafny 4.11 and stands alone;
`dafny verify dfyconfig.toml` checks all of it.

| area | files |
|---|---|
| voice codec and lossy packet plane | `AdpcmCodec`, `CanId`, `AudioPacket`, `AudioLink`, `AudioAlias`, `AudioPlayout` |
| node safety machine and heartbeat | `SafetyCore`, `SafetyWrap`, `SafetyRuns`, `Heartbeat` |
| CAN transmit scheduler | `TxQueue`, `CanTransmit`, `CanRuns`, `CanPort` |
| SPI framing and record stream | `Crc16`, `SpiFrame`, `FrameParser`, `SpiBridge`, `SpiLink` |
| flap actuation, battery interlock | `FlapServo`, `BatteryInterlock`, `BatteryRuns` |
| cloud session and bearer choice | `ResumeBuffer`, `CreditLedger`, `LinkMonitor` |
| shared | `WireTypes`, `Bounded` |

How the models are built:

- Code that updates objects or buffers in place is a class with the same fields (arrays where
  the source has fixed buffers). Its methods are proved against step functions on values, and
  the theorems about runs are lemmas about those functions.
- Where several tasks or an interrupt share state, the run theorems are about a state machine
  whose events are the critical sections and queue operations, interleaved in every order.
- Theorems are stated against a history or a reference definition, not against the stored
  fields: "the current streak", "frames missing", "checks in a row" are computed from the
  events of the run.

Results that differ from what one might expect of the code, each with a concrete run or case and
the exact condition:

- The 32-bit watchdog comparison is right exactly for beats at most 50 ms old and for ages
  that lie, modulo 2^32, above 50 ms and below 2^31 ms (`SafetyWrap.WatchdogTestExact`);
  otherwise an ancient beat looks fresh (`SafetyWrap.AncientBeatRevives`).
- docs/safety.md:44 asks for 1000 ms of beats after CLEAR_ESTOP; the code counts the current
  streak, whenever it began. A clear guarantees the full second after it exactly when it does
  not find a live streak already under way (`SafetyRuns.ClearWindowExact`); a tick releases
  exactly under `SafetyRuns.ExitExact`, in the instant of the clear exactly under
  `SafetyRuns.ReleaseAtOnceExact`, as in `SafetyRuns.ClearCanReleaseAtOnce`.
- A return after a comm-loss trip escapes the re-arm window exactly when the last state entered
  was STANDBY (`SafetyRuns.ReturnExact`, `SafetyRuns.StandbyShortcut`).
- A lost run of frames is invisible exactly when its length is a multiple of 256: for the SPI
  link `FrameParser.GapsCounted`, for voice while the receiver is locked
  `AudioLink.ReceiverTracksExactly`, with wrong samples heard in
  `AudioAlias.AliasedLossHeardWrong`.
- The OVERFLOW bit tells of refusals noted, and a note can come after the header that should
  have told of it (`SpiLink.LateNoteMisreports`). The header after a reading can be trusted
  exactly when that reading left nothing unnoted (`SpiLink.NextHeaderExact`).
- A CAN slot stays in one place across a driver report exactly when the driver reports the
  busy slot only after accepting it (`CanTransmit.ReportExact`,
  `CanRuns.LyingReportFreesTwice`).
- Flap pair limits hold for targets always, for positions in transit exactly when both members
  slew alike (`FlapServo.TransitExact`, `FlapServo.UnevenSlewBreaksPair`).
- A battery family's published bit outlives its trip exactly when the discharge gate is
  re-armed while the family is tripped (`BatteryRuns.AgreementExact`,
  `BatteryRuns.GateRearmLeavesBit`).
- A blocked audio sender can be left behind by closing its stream or by allocating a stream it
  already waits for, and by nothing else (`CreditLedger.NoLostWakeUps`); the first kind then
  waits until its task is cancelled (`CreditLedger.OrphanWaitsUntilCancelled`,
  `CreditLedger.ClosedSenderStranded`, `CreditLedger.EarlySenderStranded`).
- Preemptions in a row are bounded exactly when no bearer the policy can choose is listed with
  a better priority than its last entry has (`LinkMonitor.ChainsEndExactly`); otherwise it
  preempts itself for ever (`LinkMonitor.SelfPreempts`).

## Model

| member | source | states |
|---|---|---|
| AdpcmCodec.TableGraded | common/c/src/adpcm_ima.c:3-18 | from 7 to 32767 each step of the 89-entry table is eleven tenths of its predecessor to within 0.8, the last apart; an eighth of it plus two stays below the predecessor: the grading convergence rests on |
| AdpcmCodec.QuantiserError | common/c/src/adpcm_ima.c:39-63 | for any step and difference the chosen code's displacement misses by at most step/8 + 2 inside two steps, and saturates at 1.875 steps beyond |
| AdpcmCodec.SampleError | common/c/src/adpcm_ima.c:37-77 | one encoded sample: error at most step/8 + 2 when within two steps, else strictly smaller; and which way the step index moves in each case |
| AdpcmCodec.AdaptsBySize | common/c/src/adpcm_ima.c:15-72 | whatever the code, the step index moves by the size of the error alone: back by one below a step, up by 2, 4, 6 or 8 from 1, 1.25, 1.5 and 1.75 steps on, kept within 0 and 88 |
| AdpcmCodec.KnownAnswer | common/python/tests/vectors/adpcm_ref.json:4-20 | the first sixteen samples of the shared vector encode to its first eight bytes |
| AdpcmCodec.TrackingSettles | common/c/src/adpcm_ima.c:37-77 | a predictor within one step of a constant input reaches it exactly after step index plus three samples, and stays |
| AdpcmCodec.CatchUp | common/c/src/adpcm_ima.c:37-77 | a predictor arbitrarily far from a constant input comes within one step of it in a bounded number of samples |
| AdpcmCodec.ConstantInputConverges | common/c/src/adpcm_ima.c:37-105 | from any valid state any constant input is reproduced exactly after 104 samples and for ever after |
| AdpcmCodec.Lockstep | common/c/src/adpcm_ima.c:107-125 | decoding what was encoded from the same state yields the encoder's own reconstruction and leaves both states equal |
| AdpcmCodec.ConstantRunIsHeard | common/c/src/adpcm_ima.c:37-125 | a constant run anywhere in a stream is decoded exactly from its 104th sample on, as far as whole pairs of samples were sent |
| AdpcmCodec.EncodedConcat | common/c/src/adpcm_ima.c:107-116 | encoding in two even chunks gives the bytes of encoding at once |
| AdpcmCodec.BytesConcat | common/c/src/adpcm_ima.c:118-125 | decoding in two chunks gives the samples of decoding at once |
| AdpcmCodec.QuantisedDisplacement | common/c/src/adpcm_ima.c:47-63 | the encoder's running sum equals the displacement the decoder recomputes from the code |
| AdpcmCodec.ChooseCode | common/c/src/adpcm_ima.c:39-63 | the halving loop returns the quantiser's code and its displacement |
| AdpcmCodec.Codec.constructor | common/c/src/adpcm_ima.c:20-24 | the initial codec state |
| AdpcmCodec.Codec.EncodeSample | common/c/src/adpcm_ima.c:37-77 | in-place encoder move equals the value-level step, and adapts the step index to the size of the error |
| AdpcmCodec.Codec.DecodeSample | common/c/src/adpcm_ima.c:79-105 | in-place decoder move equals the same step function as the encoder's, and how far each magnitude moves the step index |
| AdpcmCodec.Codec.Encode | common/c/src/adpcm_ima.c:107-116 | buffer loop writes exactly the encoded bytes, low nibble first, and leaves the rest alone |
| AdpcmCodec.Codec.Decode | common/c/src/adpcm_ima.c:118-125 | buffer loop writes exactly the decoded samples and leaves the rest alone |
| AdpcmCodec.TrailingSampleIgnored | common/c/src/adpcm_ima.c:107-116 | an odd last sample changes neither the bytes nor the state that encoder and decoder end in |
| CanId.FieldsSurvive | common/c/include/powersuit_proto/can_id.h:86-109 | class, type, low byte and both addresses of a packed 29-bit identifier read back |
| CanId.LowerClassWins | common/c/include/powersuit_proto/can_id.h:86-105 | identifiers order by class first: a lower class is a smaller identifier, so it wins arbitration |
| CanId.KnownIdentifier | firmware/tests/host/test_can_id.c:4-15 | a known identifier, field by field |
| AudioPacket.SequenceTruncates | firmware/components/ps_audio/src/audio_pkt.c:29-45 | an AUDIO frame carries its number modulo 256; a SYNC carries it modulo 65536 and shows the same low byte |
| AudioPacket.FramesOnTheWire | firmware/components/ps_audio/src/audio_pkt.c:29-79 | class, types (up, down, SYNC), addresses and the eight SYNC bytes of every frame, in numbers |
| AudioPacket.ReceiveExact | firmware/components/ps_audio/src/audio_pkt.c:115-164 | every frame whatsoever: foreign, malformed or early ones leave no trace; a SYNC locks and reseeds with its step index capped; the expected frame is decoded; any other plays sixteen zeros, counts a gap and unlocks |
| AudioPacket.TakeAllCounts | firmware/components/ps_audio/src/audio_pkt.c:57-83 | however a stream is pushed, every sixteenth sample completes a frame and the rest wait |
| AudioPacket.TakeAllConcat | firmware/components/ps_audio/src/audio_pkt.c:52-86 | pushing two chunks equals pushing their concatenation |
| AudioPacket.TakeAllCompletes | firmware/components/ps_audio/src/audio_pkt.c:52-86 | a push that completes a pending block emits exactly that block's frames |
| AudioPacket.OccupiedPush | firmware/components/ps_audio/src/audio_pkt.c:102-113 | a push into the wrapping ring appends, and gives up the oldest sample exactly when full |
| AudioPacket.OccupiedPop | firmware/components/ps_audio/src/audio_pkt.c:171-182 | a pull removes the oldest sample of the wrapping ring |
| AudioPacket.Transmitter.constructor | firmware/components/ps_audio/src/audio_pkt.c:17-27 | a transmitter with nothing pending and no SYNC sent |
| AudioPacket.Transmitter.EmitSync | firmware/components/ps_audio/src/audio_pkt.c:29-45 | emits a SYNC of the current encoder state and number |
| AudioPacket.Transmitter.Push | firmware/components/ps_audio/src/audio_pkt.c:52-86 | the chunking loop over the pending buffer emits exactly the frames of the sample-by-sample specification, one per sixteen samples |
| AudioPacket.Receiver.constructor | firmware/components/ps_audio/src/audio_pkt.c:90-98 | an unlocked receiver with an empty ring |
| AudioPacket.Receiver.RingPush | firmware/components/ps_audio/src/audio_pkt.c:102-113 | the ring holds the newest 4095 samples of what was pushed |
| AudioPacket.Receiver.OnFrame | firmware/components/ps_audio/src/audio_pkt.c:115-164 | each branch (foreign class, short SYNC, reseed, unlocked, expected, gap) equals the receive step, and its samples reach the ring |
| AudioPacket.Receiver.Available | firmware/components/ps_audio/src/audio_pkt.c:166-169 | the number of samples held |
| AudioPacket.Receiver.Pull | firmware/components/ps_audio/src/audio_pkt.c:171-182 | copies out the oldest samples, in order, at most as many as asked, and removes exactly those |
| AudioLink.ChunkingIrrelevant | firmware/components/ps_audio/src/audio_pkt.c:47-86 | any way of chunking the pushes and placing explicit SYNCs yields the frames of the sample-by-sample run |
| AudioLink.WireIsLabelled | firmware/components/ps_audio/src/audio_pkt.c:29-86 | every frame on the wire is the SYNC or AUDIO frame of a definite frame index of one continuous encode of the stream |
| AudioLink.SyncsComeOften | firmware/components/ps_audio/src/audio_pkt.c:52-86 | never more than fifty audio frames in a row without a SYNC |
| AudioLink.SyncsOnSchedule | firmware/components/ps_audio/src/audio_pkt.c:71-81 | without explicit requests the wire carries exactly: every frame in order, a SYNC in front of frame 0 and of every fiftieth |
| AudioLink.FrameDecodesToReference | common/c/src/adpcm_ima.c:107-125 | decoding frame k from the encoder's state at k gives frame k of the loss-free decode, bit for bit |
| AudioLink.ReceiverHearsReference | firmware/components/ps_audio/src/audio_pkt.c:115-164 | for every run and every in-order delivery whose losses do not alias while the receiver is locked, the receiver appends exactly the reference frames while locked and one silence per break, counts the breaks, and any SYNC re-locks it |
| AudioLink.AcceptedIffAliased | firmware/components/ps_audio/src/audio_pkt.c:142-161 | a locked receiver accepts audio frame k if and only if the number of frames missing before it is a multiple of 256 |
| AudioLink.TracksExactly | firmware/components/ps_audio/src/audio_pkt.c:115-164 | for any in-order delivery the receiver follows it at every point if and only if no loss of a positive multiple of 256 frames falls while it is locked |
| AudioLink.ReceiverTracksExactly | firmware/components/ps_audio/src/audio_pkt.c:52-164 | the same equivalence for every run of the transmitter and every choice of delivered frames |
| AudioAlias.AliasedLossHeardWrong | firmware/components/ps_audio/src/audio_pkt.c:142-161 | a run and a delivery with exactly 256 frames lost: no gap is counted and the receiver plays one tone where the reference has another, for any two tones |
| AudioPlayout.PlayoutExact | firmware/components/ps_audio/src/audio_pkt.c:102-182 | over any interleaving of frames and pulls, what was drawn followed by what the ring holds is all the receiver appended if and only if the ring never overflowed |
| AudioPlayout.OutputHearsReference | firmware/components/ps_audio/src/audio_pkt.c:115-182 | end to end: with no aliased loss and no overflow the output draws the reference frames and one silence per break, in order, up to what the ring holds |
| AudioLink.NoLossesNoSilence | firmware/components/ps_audio/src/audio_pkt.c:115-164 | with nothing lost the receiver hears the loss-free decode of every whole frame and counts no gap |
| SafetyCore.SafetyMachine.constructor | firmware/components/ps_safety/src/ps_safety_core.c:41-56 | boot state, with beats and commands counted as stale |
| SafetyCore.SafetyMachine.Go | firmware/components/ps_safety/src/ps_safety_core.c:19-29 | a transition callback exactly when the state changes |
| SafetyCore.SafetyMachine.HandleHeartbeat | firmware/components/ps_safety/src/ps_safety_core.c:58-83 | equals the heartbeat step on the wrapping clock, with its callbacks |
| SafetyCore.SafetyMachine.HandleEstop | firmware/components/ps_safety/src/ps_safety_core.c:85-94 | equals the latch step |
| SafetyCore.SafetyMachine.HandleClear | firmware/components/ps_safety/src/ps_safety_core.c:96-115 | accepts exactly a clear with the magic and a larger counter |
| SafetyCore.SafetyMachine.HandleCmd | firmware/components/ps_safety/src/ps_safety_core.c:117-120 | a command is stamped, nothing else changes |
| SafetyCore.SafetyMachine.HandleModeSet | firmware/components/ps_safety/src/ps_safety_core.c:122-146 | which state each request leaves from each state, what becomes of the wish to operate, and the callbacks |
| SafetyCore.SafetyMachine.HandleBusDown | firmware/components/ps_safety/src/ps_safety_core.c:153-163 | bus-off forgets the beat and trips an operational node |
| SafetyCore.SafetyMachine.HandleTick | firmware/components/ps_safety/src/ps_safety_core.c:170-214 | equals the tick step in every state, with its callbacks |
| SafetyWrap.ElapsedAgrees | firmware/components/ps_safety/src/ps_safety_core.c:14-17 | the signed 32-bit difference is the true one while the times are less than 2^31 ms apart |
| SafetyWrap.StepAgrees | firmware/components/ps_safety/src/ps_safety_core.c:58-214 | one event moves the uint32 machine as it moves the unbounded one |
| SafetyWrap.BootAgrees | firmware/components/ps_safety/src/ps_safety_core.c:41-214 | over whole runs from boot the uint32 machine takes exactly the transitions of the machine on unbounded time, while compared times stay under 2^31 ms apart |
| SafetyWrap.WatchdogTestExact | firmware/components/ps_safety/src/ps_safety_core.c:31-34 | for a beat of any age, exactly when the 32-bit watchdog test answers correctly |
| SafetyWrap.AncientBeatRevives | firmware/components/ps_safety/src/ps_safety_core.c:191-195 | in a run from boot with one beat and nothing more for 2^31 ms the unbounded machine stays in STANDBY and the 32-bit one becomes OPERATIONAL |
| SafetyRuns.HistoryRemembered | firmware/components/ps_safety/src/ps_safety_core.c:58-83 | stored beat, streak and sequence fields equal those computed from the event history |
| SafetyRuns.StreakUnbroken | firmware/components/ps_safety/src/ps_safety_core.c:69-74 | between streak start and last beat no two successive accepted beats are more than 50 ms apart |
| SafetyRuns.RepeatsNeverCount | firmware/components/ps_safety/src/ps_safety_core.c:58-68 | a repeat of the last accepted sequence number changes nothing |
| SafetyRuns.DeadManBound | firmware/components/ps_safety/src/ps_safety_core.c:170-214 | with ticks at most P ms apart, OPERATIONAL at any instant implies an accepted beat within the last 50 + P ms |
| SafetyRuns.LiveWhileOperational | firmware/components/ps_safety/src/ps_safety_core.c:153-196 | an OPERATIONAL node has heard a beat since the bus was last down |
| SafetyRuns.WishRemembered | firmware/components/ps_safety/src/ps_safety_core.c:85-146 | the stored wish to operate is a MODE_SET(OPERATIONAL) since which nothing latched and no lesser state was requested |
| SafetyRuns.TickOperatesExact | firmware/components/ps_safety/src/ps_safety_core.c:185-207 | a tick makes a node OPERATIONAL if and only if an unwithdrawn MODE_SET(OPERATIONAL) is there, the latest beat is at most 50 ms old, and the node is in STANDBY or in PASSIVE with the re-arm window met, all read off the history |
| SafetyRuns.FreshCommandFallsInside | firmware/components/ps_safety/src/ps_safety_core.c:198-205 | in a full re-arm window a fresh command always falls inside the streak, so the test of their order never decides |
| SafetyRuns.StateDiagramExact | firmware/components/ps_safety/src/ps_safety_core.c:58-214 | the whole state diagram, read off the history: where every event of every run takes the node from every state |
| SafetyRuns.OperationalMeansWished | firmware/components/ps_safety/src/ps_safety_core.c:85-146 | OPERATIONAL always rests on a MODE_SET(OPERATIONAL) since which nothing latched and no lesser state was requested |
| SafetyRuns.StandDownHolds | firmware/components/ps_safety/src/ps_safety_core.c:122-146 | told to stand down, a node is not OPERATIONAL from that very event until a new MODE_SET(OPERATIONAL) |
| SafetyRuns.ReturnAfterTrip | firmware/components/ps_safety/src/ps_safety_core.c:185-207 | a return to OPERATIONAL out of PASSIVE after a comm-loss trip rests on 250 ms of an unbroken streak begun after the trip, with a command inside it under 200 ms old |
| SafetyRuns.ReturnExact | firmware/components/ps_safety/src/ps_safety_core.c:122-207 | a return after a trip escapes the window if and only if the last state entered was STANDBY, by MODE_SET(STANDBY) or by release from ESTOP; otherwise the window is met by a streak begun after the trip |
| SafetyRuns.StandbyShortcut | firmware/components/ps_safety/src/ps_safety_core.c:128-133 | a run from boot that trips and is OPERATIONAL again in the same instant through STANDBY, with a streak of 0 ms and no command |
| SafetyRuns.EstopHasLatch | firmware/components/ps_safety/src/ps_safety_core.c:85-94 | in ESTOP there is a latest latch, and a cleared cause means a clear accepted after it |
| SafetyRuns.CauseOfLatchKept | firmware/components/ps_safety/src/ps_safety_core.c:85-94 | while latched, the reported cause is that of the event that latched, whatever came later |
| SafetyRuns.EstopStampExact | firmware/components/ps_safety/src/ps_safety_core.c:85-111 | the time kept with an e-stop is that of the latest latch, or of the clear that lifted it, and no cause outlives the state |
| SafetyRuns.ExitNeedsClear | firmware/components/ps_safety/src/ps_safety_core.c:177-183 | ESTOP is left only by a tick to STANDBY, after a clear accepted since the latest latch, on a live unbroken streak of at least 1000 ms |
| SafetyRuns.ExitExact | firmware/components/ps_safety/src/ps_safety_core.c:177-183 | a tick releases a node in ESTOP if and only if a clear was accepted with no latch after it, the latest beat is at most 50 ms old and its streak at least 1000 ms |
| SafetyRuns.ClearWindowExact | firmware/components/ps_safety/src/ps_safety_core.c:96-183 | every exit that rests on an accepted clear, in every continuation, comes at least 1000 ms after it if and only if the clear does not find the node in ESTOP with a beat at most 50 ms old whose streak began at an earlier instant |
| SafetyRuns.EarlyReleaseWorks | firmware/components/ps_safety/src/ps_safety_core.c:58-183 | otherwise: a timed continuation of beats and one tick that lets the node out less than 1000 ms after the clear |
| SafetyRuns.ReleaseAtOnceExact | firmware/components/ps_safety/src/ps_safety_core.c:96-183 | a clear releases in its own instant if and only if a live streak of 1000 ms is already there |
| SafetyRuns.ClearsNeverReplay | firmware/components/ps_safety/src/ps_safety_core.c:96-115 | no accepted clear counter is ever accepted again |
| SafetyRuns.ClearAcceptedExact | firmware/components/ps_safety/src/ps_safety_core.c:96-107 | a clear is accepted exactly when it carries the magic and a counter above every one accepted before |
| SafetyRuns.ExitsSpendFreshClears | firmware/components/ps_safety/src/ps_safety_core.c:96-183 | each exit from ESTOP rests on its own, strictly larger counter |
| SafetyRuns.OperationalNeedsModeSet | firmware/components/ps_safety/src/ps_safety_core.c:122-214 | OPERATIONAL after an ESTOP entry needs a MODE_SET(OPERATIONAL) received since that entry |
| SafetyRuns.FaultUnreachable | firmware/components/ps_safety/src/ps_safety_core.c:41-214 | no run reaches FAULT |
| SafetyRuns.ClearCanReleaseAtOnce | firmware/components/ps_safety/src/ps_safety_core.c:177-182 | a node that heard beats while latched leaves ESTOP in the instant a clear is accepted |
| Heartbeat.HeartbeatEmitter.constructor | orchestrator/ros2_ws/src/suit_canspi_bridge/include/suit_canspi_bridge/heartbeat.hpp:48-50 | an emitter that has sent nothing |
| Heartbeat.HeartbeatEmitter.Tick | orchestrator/ros2_ws/src/suit_canspi_bridge/src/heartbeat.cpp:12-51 | emits exactly with the gate open and 10 whole ms since the last beat; the frame is a broadcast SAFETY heartbeat of the orchestrator that a node reads back with this sequence number, and its flags, state and uptime are those given |
| Heartbeat.NeverFakesLiveness | orchestrator/ros2_ws/src/suit_canspi_bridge/include/suit_canspi_bridge/heartbeat.hpp:28-31 | every beat ever sent left at a tick with the transport healthy, no e-stop latched and ROS up |
| Heartbeat.NeverTooOften | orchestrator/ros2_ws/src/suit_canspi_bridge/src/heartbeat.cpp:21-27 | consecutive beats are at least ten milliseconds apart |
| Heartbeat.PayloadCarries | orchestrator/ros2_ws/src/suit_canspi_bridge/src/heartbeat.cpp:32-39 | each flag has its own bit, no other bit is set, and state and uptime read back |
| Heartbeat.EmissionSpacing | orchestrator/ros2_ws/src/suit_canspi_bridge/src/heartbeat.cpp:12-51 | from any tick on after which the gate stays open, ticked every T, the newest beat is under 10 ms old at every tick and beats are less than 10 ms + T apart |
| Heartbeat.ArrivalsCount | firmware/components/ps_safety/src/ps_safety_core.c:58-68 | with bounded losses every arriving beat is accepted: the 16-bit number never repeats in a row |
| Heartbeat.NoFalseTrip | orchestrator/ros2_ws/src/suit_canspi_bridge/src/heartbeat.cpp:12-51 | if the gate stays open from some tick on and (k+1)(10+T)+J <= 50 ms, no tick drops an OPERATIONAL node to PASSIVE: at once for a gate never shut, after a reopening as soon as a beat sent since is heard and in any case 50 ms after one could be |
| Heartbeat.ShutGateTrips | orchestrator/ros2_ws/src/suit_canspi_bridge/src/heartbeat.cpp:12-26 | with the gate shut, a node ticked 50 ms after the last beat could arrive is not OPERATIONAL |
| TxQueue.Rings.constructor | firmware/components/ps_can/src/ps_can_txq.c:6-9 | eight empty queues |
| TxQueue.Rings.Push | firmware/components/ps_can/src/ps_can_txq.c:11-20 | the wrapping ring appends to its class's sequence; refused, with nothing changed, exactly for a bad or full class |
| TxQueue.Rings.Pop | firmware/components/ps_can/src/ps_can_txq.c:22-35 | removes and returns the item that has waited longest in the most urgent class that has any; -1 exactly when none has |
| TxQueue.Rings.Len | firmware/components/ps_can/src/ps_can_txq.c:37-44 | items across all classes |
| TxQueue.PopTakesOne | firmware/components/ps_can/src/ps_can_txq.c:22-44 | there is something to pop exactly when anything waits, and a pop takes one |
| CanTransmit.StepTidy | firmware/components/ps_can/src/ps_can.c:138-281 | every atomic step keeps each of the sixteen slots in exactly one place, given an honest driver |
| CanTransmit.ReturnHasRoom | firmware/components/ps_can/src/ps_can.c:96-99 | while anyone holds a slot the free queue has room, so no release is lost |
| CanTransmit.PushHasRoom | firmware/components/ps_can/src/ps_can.c:498-507 | a sender holding a slot always finds room in its class ring, so the push cannot fail |
| CanTransmit.ReportExact | firmware/components/ps_can/src/ps_can.c:138-160 | a driver report keeps the slots partitioned if and only if the busy slot is reported only after it was accepted |
| CanRuns.SlotsPartitioned | firmware/components/ps_can/src/ps_can.c:216-281 | in every interleaving the sixteen slots are partitioned among free queue, class queues, wire and holders |
| CanRuns.EveryFrameEndsOnce | firmware/components/ps_can/src/ps_can.c:138-281 | each accepted frame is carried unchanged by exactly one slot or has ended exactly once, reported or dropped |
| CanRuns.DryMeansEnded | firmware/components/ps_can/src/ps_can.c:216-281 | once the transmitter is dry every accepted frame has ended |
| CanRuns.MessagesKept | firmware/components/ps_can/src/ps_can.c:489-496 | no step writes a buffer that holds an accepted frame |
| CanRuns.ClassOrderKept | firmware/components/ps_can/src/ps_can.c:253-266 | frames of one class leave in the order they were accepted |
| CanRuns.CommitIsMostUrgent | firmware/components/ps_can/src/ps_can.c:253-266 | whenever a frame is committed, every accepted frame of a more urgent class has already left, and every earlier one of its class |
| CanRuns.CommitBeatsWaiting | firmware/components/ps_can/src/ps_can_txq.c:22-35 | no frame that waits when another is committed has a lower class field in its identifier, nor the same one and an earlier acceptance |
| CanRuns.FreeingWasReported | firmware/components/ps_can/src/ps_can.c:138-168 | a slot on its way back from the interrupt was on the wire when it was reported, and carries the verdict of that report |
| CanRuns.FlushEmpties | firmware/components/ps_can/src/ps_can.c:216-233 | an uninterrupted flush drops every waiting frame before it takes back the one in flight, and then leaves nothing waiting and nothing in flight |
| CanRuns.OfClassExact | firmware/components/ps_can/src/ps_can.c:500-502 | the per-class order used above lists exactly that class's accepted frames, rising |
| CanRuns.LyingReportFreesTwice | firmware/components/ps_can/src/ps_can.c:270-277 | a report for a frame just refused puts its slot in the free queue twice |
| CanPort.Context.constructor | firmware/components/ps_can/src/ps_can.c:360-370 | all sixteen slots free, nothing queued |
| CanPort.Context.TakeSlot | firmware/components/ps_can/src/ps_can.c:475-487 | an oversized frame or identifier is refused; otherwise the sender's receive is the machine's take |
| CanPort.Context.Enqueue | firmware/components/ps_can/src/ps_can.c:500-502 | the sender's critical section is the machine's queue step, on the real rings |
| CanPort.Context.CommitNext | firmware/components/ps_can/src/ps_can.c:253-263 | the task's critical section is the machine's commit, on the real rings |
| CanPort.Context.ClearBusy | firmware/components/ps_can/src/ps_can.c:273-275 | the critical section after a refusal is the machine's unlock |
| CanPort.Context.FlushNext | firmware/components/ps_can/src/ps_can.c:216-226 | the flush's critical section is the machine's flush step |
| CanPort.Context.TxDone | firmware/components/ps_can/src/ps_can.c:150-158 | the interrupt's critical section is the machine's report |
| CanPort.Context.Release | firmware/components/ps_can/src/ps_can.c:96-99 | a release never finds the free queue full |
| Crc16.ComputeUpdate | common/c/src/crc16.c:3-16 | the byte and bit loops compute the specification |
| Crc16.KnownAnswer | firmware/tests/host/test_crc16.c:4-7 | the nine digits give the published check value |
| Crc16.UpdateConcat | common/c/src/crc16.c:3-16 | the update over a concatenation is the update of the updates |
| Crc16.ShiftLinear | common/c/src/crc16.c:3-16 | the zero-feed step is linear over exclusive or |
| Crc16.ShiftInjective | common/c/src/crc16.c:3-16 | the zero-feed step is injective |
| Crc16.UpdateAsBits | common/c/src/crc16.c:3-16 | bytewise update equals feeding the bits one at a time |
| Crc16.BurstDetected | common/c/src/crc16.c:3-16 | for data of any length, any nonzero change inside sixteen consecutive bits changes the CRC |
| SpiFrame.RecordRoundTrip | common/c/src/spi_frame.c:17-34 | a written record reads back as its wire form, or is refused exactly when its length nibble exceeds eight |
| SpiFrame.SlotBytes | common/c/src/spi_frame.c:17-24 | the sixteen bytes of a record, one by one |
| SpiFrame.SlotReadable | common/c/src/spi_frame.c:26-34 | any sixteen bytes are a record exactly when their length nibble is at most eight |
| SpiFrame.FrameRoundTrip | common/c/src/spi_frame.c:36-86 | a built frame of up to 31 records parses to its flags, count, number and record bytes |
| SpiFrame.WireLayout | common/c/src/spi_frame.c:36-55 | where everything stands in a built transfer: header, checksum over one stream, record i at 8 + 16 i, zeros behind |
| SpiFrame.ParseExact | common/c/src/spi_frame.c:57-86 | for any bytes: accepted exactly under these conditions, and otherwise which error |
| SpiFrame.SerializedReadable | common/c/src/spi_frame.c:88-94 | the readable records of a built frame are exactly its deliverable ones, in order |
| SpiFrame.BurstRejected | common/c/src/spi_frame.c:57-86 | every nonzero corruption within sixteen consecutive covered bits, count byte apart, makes parse fail |
| SpiFrame.Build | common/c/src/spi_frame.c:36-55 | fills the buffer with exactly the frame, zero padding included, or refuses more than 31 records untouched |
| SpiFrame.Scan | common/c/src/spi_frame.c:96-108 | the first offset with the magic, or none |
| SpiFrame.ScanFindsFrame | common/c/src/spi_frame.c:96-108 | scanning magic-free garbage followed by a built frame finds exactly the frame's offset |
| FrameParser.Parser.constructor | orchestrator/ros2_ws/src/suit_canspi_bridge/include/suit_canspi_bridge/frame_parser.hpp:52-55 | a parser that has seen nothing |
| FrameParser.Parser.BuildFrame | orchestrator/ros2_ws/src/suit_canspi_bridge/src/frame_parser.cpp:14-22 | builds the frame with the next number; a list that does not fit uses none up |
| FrameParser.Parser.IsAllZero | orchestrator/ros2_ws/src/suit_canspi_bridge/src/frame_parser.cpp:5-12 | true exactly of an all-zero buffer, the empty one included |
| FrameParser.Parser.ParseBuffer | orchestrator/ros2_ws/src/suit_canspi_bridge/src/frame_parser.cpp:24-75 | each outcome, statistic and record list equals the parse step |
| FrameParser.CleanFrameParsed | orchestrator/ros2_ws/src/suit_canspi_bridge/src/frame_parser.cpp:24-75 | a clean frame hands over exactly the deliverable records it was built from |
| FrameParser.GapsCounted | orchestrator/ros2_ws/src/suit_canspi_bridge/src/frame_parser.cpp:56-63 | for any pattern of lost and rejected frames the link counts one gap per run of missing frames between good ones, except runs whose length is a multiple of 256, and every transfer in exactly one statistic |
| FrameParser.StatsExact | orchestrator/ros2_ws/src/suit_canspi_bridge/src/frame_parser.cpp:24-75 | for any list of buffers each counter is the number of buffers of its kind: all zero, no magic, accepted, and the rest |
| SpiBridge.Bridge.constructor | firmware/components/ps_spibridge/src/ps_spibridge.c:187-195 | empty queues of the configured or default length |
| SpiBridge.Bridge.Start | firmware/components/ps_spibridge/src/ps_spibridge.c:182-242 | both slots are filled with empty frames numbered in turn and the uplink opens; a second start changes nothing |
| SpiBridge.Bridge.UplinkPush | firmware/components/ps_spibridge/src/ps_spibridge.c:244-258 | refused exactly when not started or full; a full queue leaves the overflow note |
| SpiBridge.Bridge.SetFlag | firmware/components/ps_spibridge/src/ps_spibridge.c:268-278 | each sticky bit named becomes the given value, every other bit stays |
| SpiBridge.Bridge.BuildTx | firmware/components/ps_spibridge/src/ps_spibridge.c:124-149 | the oldest 31 records or fewer leave the queue as one frame, with more-pending set exactly when records stay behind, overflow exactly when a refusal was noted, the sticky bits and nothing else |
| SpiBridge.FlagsExact | firmware/components/ps_spibridge/src/ps_spibridge.c:133-143 | the header's flags bit by bit |
| SpiBridge.Bridge.RxIsIdle | firmware/components/ps_spibridge/src/ps_spibridge.c:64-78 | true exactly of no bytes or a zero header |
| SpiBridge.Bridge.HandleRx | firmware/components/ps_spibridge/src/ps_spibridge.c:80-122 | a rejected transfer leaves the downlink alone; a good one leaves the newest records that fit, in order, and exact counters |
| SpiLink.AlwaysSound | firmware/components/ps_spibridge/src/ps_spibridge.c:158-180 | both transfer slots are always accounted for and nothing outgrows its bound |
| SpiLink.BurstsAreCarried | common/c/src/spi_frame.c:57-86 | every corruption proved to be caught is one the link theorems allow for |
| SpiLink.StreamKept | firmware/components/ps_spibridge/src/ps_spibridge.c:124-149 | every accepted record is in a built frame, in the pump's hands or queued, once and in order |
| SpiLink.AlwaysOrdered | firmware/components/ps_spibridge/src/ps_spibridge.c:140-156 | frames leave in the order built, frame k carrying k modulo 256 |
| SpiLink.ReceivedIntact | orchestrator/ros2_ws/src/suit_canspi_bridge/src/frame_parser.cpp:24-75 | the orchestrator holds exactly the deliverable records of accepted transfers; a rejected one costs its records whole |
| SpiLink.LinkFollows | orchestrator/ros2_ws/src/suit_canspi_bridge/src/frame_parser.cpp:24-75 | the orchestrator's link state is its parser's after all buffers clocked |
| SpiLink.CleanLinkDelivers | firmware/components/ps_spibridge/src/ps_spibridge.c:124-180 | on a clean link received records, then armed slots, pump and queue, are exactly the accepted pushes |
| SpiLink.GapsMatchRejections | orchestrator/ros2_ws/src/suit_canspi_bridge/src/frame_parser.cpp:56-63 | over a whole run the orchestrator counts one gap per run of frames lost between accepted ones, apart from lengths divisible by 256, and every clocked transfer once, transfers with no slot armed included |
| SpiLink.NoteRemembers | firmware/components/ps_spibridge/src/ps_spibridge.c:249-253 | the one-shot flag is set exactly when a producer noted a refusal since the last header reading |
| SpiLink.OverflowReportedOnce | firmware/components/ps_spibridge/src/ps_spibridge.c:133-148 | frame k carries OVERFLOW exactly when a refusal was noted since the previous reading, the sticky bits as they then stood, MORE_PENDING exactly when records were still queued at the look before it was armed, and no other bit |
| SpiLink.NotesBalance | firmware/components/ps_spibridge/src/ps_spibridge.c:249-253 | refusals carried over plus new ones equal notes made plus notes still owed: every refusal is noted once |
| SpiLink.NextHeaderExact | firmware/components/ps_spibridge/src/ps_spibridge.c:131-139 | when a header is about to be read: however the run goes on, the next header that finds nothing unnoted is truthful about refused pushes if and only if nothing is unnoted now |
| SpiLink.DebtMisleads | firmware/components/ps_spibridge/src/ps_spibridge.c:124-139 | otherwise: a continuation without any push whose next header reports a refusal |
| SpiLink.PromptNotesAgree | firmware/components/ps_spibridge/src/ps_spibridge.c:131-139 | after a reading that left nothing unnoted, the flag means a push was refused since exactly when it is set or nothing waits to be noted |
| SpiLink.LateNoteMisreports | firmware/components/ps_spibridge/src/ps_spibridge.c:249-253 | a run whose first header is silent about a refused push and whose second reports one although none happened since |
| SpiLink.BuildUninterrupted | firmware/components/ps_spibridge/src/ps_spibridge.c:124-156 | left alone, the pump's steps arm the very frame the driver's build writes |
| FlapServo.ServoTask.constructor | firmware/apps/node_flight/main/servo_task.c:157-168 | all flaps at neutral |
| FlapServo.ServoTask.FlapWrite | firmware/apps/node_flight/main/servo_task.c:135-155 | the pulse is that of the position kept within its envelope, always in the mechanical range, and proportional to the position |
| FlapServo.ServoTask.ExcludePairs | firmware/apps/node_flight/main/servo_task.c:197-214 | the in-place loop over pairs yields each flap's legal target and limit flag |
| FlapServo.ServoTask.Period | firmware/apps/node_flight/main/servo_task.c:176-250 | one period moves every flap as specified and keeps it in its envelope |
| FlapServo.PulseInRange | firmware/apps/node_flight/main/servo_task.c:141-154 | inside the widest envelope the pulse clamp never acts, with C's rounding |
| FlapServo.PulseMeaning | firmware/apps/node_flight/main/servo_task.c:141-147 | neutral at 1500 us, full throw 600 us either way, proportional in between, rounded toward neutral |
| FlapServo.PulseRises | firmware/apps/node_flight/main/servo_task.c:141-147 | the pulse never falls as the position rises |
| FlapServo.EnvelopeKept | firmware/apps/node_flight/main/servo_task.c:176-250 | over every run horn positions stay in their envelope |
| FlapServo.ExclusionNearest | firmware/apps/node_flight/main/servo_task.c:197-214 | the exclusion is legal, cuts both magnitudes equally, keeps signs, and one permille less would not do |
| FlapServo.TargetsLegal | firmware/apps/node_flight/main/servo_task.c:197-214 | every tick's targets satisfy every pair limit |
| FlapServo.LimitFlagExact | firmware/apps/node_flight/main/servo_task.c:189-213 | the limit flag is up exactly when the request was changed or sits on the envelope |
| FlapServo.MoveBounded | firmware/apps/node_flight/main/servo_task.c:233-239 | a move is at most one step and never overshoots |
| FlapServo.SlewCap | firmware/apps/node_flight/main/servo_task.c:221-232 | a step never exceeds the configured, commanded or derated rate, except that it is at least one permille |
| FlapServo.SlewExact | firmware/apps/node_flight/main/servo_task.c:221-232 | the exact step: the segment's own rate or a lower one in the command, derated, a hundredth of it per tick, at least one permille |
| FlapServo.LegalCommandKept | firmware/apps/node_flight/main/servo_task.c:185-201 | a command inside its envelope whose pair stays inside its limit is carried out as it stands |
| FlapServo.FixedTargetReached | firmware/apps/node_flight/main/servo_task.c:216-239 | fixed commands are reached in distance divided by step ticks, and kept |
| FlapServo.Approach | firmware/apps/node_flight/main/servo_task.c:216-239 | held commands close the distance by exactly one step a tick, from one side, until there is none |
| FlapServo.LoneTrajectory | firmware/apps/node_flight/main/board_flight.h:42-56 | from neutral a lone flap travels 12 permille a tick, 10 at the tip, to its command or the end of its envelope, and no other flap stirs |
| FlapServo.BrakesDeploy | firmware/apps/node_flight/main/servo_task.c:182-214 | held brakes bring the whole bank to 700, 800 and 700 permille per wing from any reachable position, whatever else the commands carry |
| FlapServo.RefusalNeutralises | firmware/apps/node_flight/main/servo_task.c:180-239 | while refused, whatever the commands, magnitudes strictly shrink and never change side |
| FlapServo.NeutralInTime | firmware/apps/node_flight/main/servo_task.c:176-239 | from any reachable position a refused bank is neutral within 1000 ticks |
| FlapServo.RefusedPairsFall | firmware/apps/node_flight/main/servo_task.c:180-239 | pair sums never rise while refused |
| FlapServo.TransitExact | firmware/apps/node_flight/main/servo_task.c:216-239 | a pair limit survives every move between legal points if and only if both members slew alike |
| FlapServo.PairLegalInTransit | firmware/apps/node_flight/main/servo_task.c:176-239 | runs in which both members always slew alike keep the pair legal in transit |
| FlapServo.UnevenSlewBreaksPair | firmware/apps/node_flight/main/board_flight.h:42-69 | a run from neutral that exceeds the first pair's limit in transit |
| BatteryInterlock.BatteryTask.constructor | firmware/apps/node_chest_hub/main/bms_task.c:529-534 | armed, or latched with the short bit up, according to the latch input, and nothing else set |
| BatteryInterlock.BatteryTask.Check | firmware/apps/node_chest_hub/main/bms_task.c:222-243 | counts, trips and latches the mirror as specified |
| BatteryInterlock.BatteryTask.HandleShortTrip | firmware/apps/node_chest_hub/main/bms_task.c:279-295 | a seen short latches, swaps its two bits and latches the mirror |
| BatteryInterlock.BatteryTask.HandleClear | firmware/apps/node_chest_hub/main/gateway_task.c:161-177 | exactly an accepted clear requests a re-arm |
| BatteryInterlock.BatteryTask.TryRearm | firmware/apps/node_chest_hub/main/bms_task.c:302-345 | each way a re-arm request is kept, spent, refused or honoured |
| BatteryRuns.LatchBitsComplementary | firmware/apps/node_chest_hub/main/bms_task.c:279-345 | COMP_ARMED and SHORT_LATCH are complementary and agree with the latch flag in every run |
| BatteryRuns.FlagsRemember | firmware/apps/node_chest_hub/main/bms_task.c:279-345 | in every run the short latch, the interrupt's flag and the re-arm request are up exactly when they were raised and not lowered since |
| BatteryRuns.AttemptsSpendClears | firmware/apps/node_chest_hub/main/bms_task.c:297-312 | every re-arm attempt spends an accepted clear of its own |
| BatteryRuns.TripReachesMirror | firmware/apps/node_chest_hub/main/bms_task.c:235-287 | a trip hands on its own cause and a short cause 1; raising latches the mirror under it unless it was latched already, and nothing else the task does comes in between |
| BatteryRuns.DebounceMeansStreak | firmware/apps/node_chest_hub/main/bms_task.c:222-243 | the counter is the streak of critical checks since the last non-critical one or re-arm, saturated |
| BatteryRuns.TripsAtFifty | firmware/apps/node_chest_hub/main/bms_task.c:222-243 | a check trips its family exactly when it is the fiftieth critical one in a row and no earlier row since the re-arm got that far |
| BatteryRuns.TwoTripsNeedClear | firmware/apps/node_chest_hub/main/bms_task.c:302-325 | between two trips of a family a clear is accepted after the first, then the mirror is found in STANDBY, then a re-arm happens |
| BatteryRuns.ShutUntilCleared | firmware/apps/node_chest_hub/main/gateway_task.c:105-112 | from a trip until the next accepted clear the mirror is latched, or being latched, and no re-arm is under way |
| BatteryRuns.BitMeansTrippedSincePlain | firmware/apps/node_chest_hub/main/bms_task.c:236-345 | a family's bit says that it tripped since the last re-arm that was not a gate re-arm |
| BatteryRuns.AgreementExact | firmware/apps/node_chest_hub/main/bms_task.c:313-341 | bits and trip marks part exactly when the gate is re-armed while a family is tripped |
| BatteryRuns.GateRearmLeavesBit | firmware/apps/node_chest_hub/main/bms_task.c:335-341 | a run from power-up after which a bit is set and its family is not tripped |
| ResumeBuffer.Outbox.constructor | cloud/cloud_ai_core/gateway/session.py:22-30 | nothing sent, nothing buffered |
| ResumeBuffer.Outbox.Attach | cloud/cloud_ai_core/gateway/session.py:133-135 | the socket becomes live, nothing buffered changes |
| ResumeBuffer.Outbox.Detach | cloud/cloud_ai_core/gateway/session.py:137-139 | the socket is gone, nothing buffered changes |
| ResumeBuffer.Outbox.Send | cloud/cloud_ai_core/gateway/session.py:46-65 | numbers the message, keeps the newest 512 bufferable ones, socket or none |
| ResumeBuffer.Outbox.ReplayAfter | cloud/cloud_ai_core/gateway/session.py:75-86 | transmits the buffered messages after the client's last, or a prefix of them if the socket dies |
| ResumeBuffer.KeptRising | cloud/cloud_ai_core/gateway/session.py:54-57 | bufferable messages have strictly increasing numbers from one |
| ResumeBuffer.MissedExact | cloud/cloud_ai_core/gateway/session.py:46-86 | from the calls alone: call k is among the missed messages exactly when it was to be kept and k is beyond the client's last, and they come in order |
| ResumeBuffer.ReplayComplete | cloud/cloud_ai_core/gateway/session.py:75-86 | a replay misses none of the bufferable messages after the client's last if and only if at most 512 accumulated; otherwise it sends the newest 512 of them |
| CreditLedger.Session.constructor | cloud/cloud_ai_core/gateway/session.py:38-42 | an empty ledger |
| CreditLedger.Session.AllocStream | cloud/cloud_ai_core/gateway/session.py:90-94 | opens the next stream with the initial and held credits |
| CreditLedger.Session.AddGrant | cloud/cloud_ai_core/gateway/session.py:99-109 | credits an open stream or holds the grant, and wakes its waiters |
| CreditLedger.Session.ConsumePass | cloud/cloud_ai_core/gateway/session.py:111-125 | one pass of the loop raises, takes or suspends as specified |
| CreditLedger.Session.CloseStream | cloud/cloud_ai_core/gateway/session.py:127-129 | forgets the stream's credits and event |
| CreditLedger.Session.AttachSocket | cloud/cloud_ai_core/gateway/session.py:133-135 | marks the socket live |
| CreditLedger.Session.DetachSocket | cloud/cloud_ai_core/gateway/session.py:137-142 | marks the socket gone and wakes every registered waiter |
| CreditLedger.Session.CancelTasks | cloud/cloud_ai_core/gateway/session.py:150-152 | each cancelled task stops waiting, nothing else changes |
| CreditLedger.CreditsConserved | cloud/cloud_ai_core/gateway/session.py:90-129 | in every interleaving, for every open stream, taken plus left equals initial plus all positive grants to its id, early ones included, and nothing goes negative |
| CreditLedger.LedgerMatchesHistory | cloud/cloud_ai_core/gateway/session.py:90-142 | streams are numbered from one; the ledger holds exactly those allocated and not closed since, with no grant held back from them; and the socket is live exactly when attached and not detached since |
| CreditLedger.PollExact | cloud/cloud_ai_core/gateway/session.py:111-125 | what a pass of the consume loop does, from the history alone: raise, take or block; a closed stream never yields again |
| CreditLedger.SettledStep | cloud/cloud_ai_core/gateway/session.py:90-152 | one call keeps every blocked sender creditless, live and within reach of its wake-up if and only if it strands none |
| CreditLedger.NoLostWakeUps | cloud/cloud_ai_core/gateway/session.py:90-152 | over whole runs no wake-up is lost if and only if no stream is closed under a blocked sender and none with credit is allocated under a waiting one |
| CreditLedger.CloseOrphans | cloud/cloud_ai_core/gateway/session.py:127-129 | closing a stream under a blocked sender leaves it on an event nobody owns |
| CreditLedger.OrphanWaitsUntilCancelled | cloud/cloud_ai_core/gateway/session.py:107-152 | such a sender waits on through any grants, detach or attach, exactly until its own task is cancelled |
| CreditLedger.ClosedSenderStranded | cloud/cloud_ai_core/gateway/session.py:127-142 | a run from a fresh session that leaves a sender blocked on a dead socket |
| CreditLedger.EarlySenderStranded | cloud/cloud_ai_core/gateway/session.py:90-94 | a sender that starts before its stream is allocated stays blocked with credit to spend |
| LinkMonitor.Create | orchestrator/ros2_ws/src/suit_cloud_gateway/suit_cloud_gateway/link_monitor.py:70-85 | the default policy over the given bearers, the last entry of a name in the table; an empty list is an error |
| LinkMonitor.Monitor.constructor | orchestrator/ros2_ws/src/suit_cloud_gateway/suit_cloud_gateway/link_monitor.py:70-85 | the table of last entries and the bearers in priority order, none observed |
| LinkMonitor.TableIsLast | orchestrator/ros2_ws/src/suit_cloud_gateway/suit_cloud_gateway/link_monitor.py:77-77 | a name's entry in the table is its last in the list, and exactly the listed names are there |
| LinkMonitor.Monitor.Update | orchestrator/ros2_ws/src/suit_cloud_gateway/suit_cloud_gateway/link_monitor.py:88-110 | the bearer is healthy from then on exactly if the link is up, measured, under its budget and under the loss limit; the two stored times stay the start of the current maximal run of the history |
| LinkMonitor.NoWorseIsHealthy | orchestrator/ros2_ws/src/suit_cloud_gateway/suit_cloud_gateway/link_monitor.py:98-101 | an observation no worse in any field than a healthy one is healthy |
| LinkMonitor.HealthyMeansServing | orchestrator/ros2_ws/src/suit_cloud_gateway/suit_cloud_gateway/link_monitor.py:98-135 | a bearer is healthy for as long as every observation found it up, measured and under both limits |
| LinkMonitor.UnhealthyMeansFailing | orchestrator/ros2_ws/src/suit_cloud_gateway/suit_cloud_gateway/link_monitor.py:98-141 | a bearer is unhealthy for as long as every observation found it down, unmeasured, or at or over a limit |
| LinkMonitor.Monitor.HealthySpan | orchestrator/ros2_ws/src/suit_cloud_gateway/suit_cloud_gateway/link_monitor.py:131-135 | time since the start of the current healthy run |
| LinkMonitor.Monitor.UnhealthySpan | orchestrator/ros2_ws/src/suit_cloud_gateway/suit_cloud_gateway/link_monitor.py:137-141 | time since the start of the current unhealthy run |
| LinkMonitor.Monitor.PickHealthy | orchestrator/ros2_ws/src/suit_cloud_gateway/suit_cloud_gateway/link_monitor.py:143-147 | the first bearer in priority order that is healthy and not excluded, or none exists |
| LinkMonitor.Monitor.Evaluate | orchestrator/ros2_ws/src/suit_cloud_gateway/suit_cloud_gateway/link_monitor.py:150-175 | attach, switch away, preempt or stay, decided both ways on the observation history alone; whatever is attached or switched to served at its last observation, a preempting bearer throughout the preemption span, and a bearer left failed throughout the grace period; an empty name is never attached or switched away to |
| LinkMonitor.Monitor.Commit | orchestrator/ros2_ws/src/suit_cloud_gateway/suit_cloud_gateway/link_monitor.py:177-181 | activates the bearer and counts a change of bearer |
| LinkMonitor.Monitor.DropActive | orchestrator/ros2_ws/src/suit_cloud_gateway/suit_cloud_gateway/link_monitor.py:183-184 | no bearer is active |
| LinkMonitor.RunStart | orchestrator/ros2_ws/src/suit_cloud_gateway/suit_cloud_gateway/link_monitor.py:98-110 | where the current maximal run of equal verdicts began |
| LinkMonitor.ForMeansThroughout | orchestrator/ros2_ws/src/suit_cloud_gateway/suit_cloud_gateway/link_monitor.py:131-141 | healthy or unhealthy for a positive span exactly when nothing else was observed throughout it |
| LinkMonitor.ByPriority | orchestrator/ros2_ws/src/suit_cloud_gateway/suit_cloud_gateway/link_monitor.py:78-78 | a permutation of the bearers with rising priority numbers |
| LinkMonitor.ByPriorityStable | orchestrator/ros2_ws/src/suit_cloud_gateway/suit_cloud_gateway/link_monitor.py:78-78 | bearers of equal priority keep the order in which they were given |
| LinkMonitor.ChainsEnd | orchestrator/ros2_ws/src/suit_cloud_gateway/suit_cloud_gateway/link_monitor.py:168-175 | where no entry outranks the one its name ends up with, consecutive preemptions strictly descend in priority number and are fewer than the bearers |
| LinkMonitor.ChainsEndExactly | orchestrator/ros2_ws/src/suit_cloud_gateway/suit_cloud_gateway/link_monitor.py:168-181 | for every list of bearers and every span, preemptions the policy takes in a row are bounded by the number of bearers if and only if no entry it can choose outranks the one its name ends up with |
| LinkMonitor.EagerChainsEnd | orchestrator/ros2_ws/src/suit_cloud_gateway/suit_cloud_gateway/link_monitor.py:168-175 | a policy that waits for no healthy span preempts at most once where the first entry's rank holds |
| LinkMonitor.SelfPreempts | orchestrator/ros2_ws/src/suit_cloud_gateway/suit_cloud_gateway/link_monitor.py:168-175 | a name listed under a better rank than its own is preempted by itself at every look |

## Left out

- Undetected corruption of an SPI transfer: `SpiLink` takes a transfer that parses to mean what was sent; `SpiLink.BurstsAreCarried` says which corruptions that provably includes.
- SpiFrame.BurstRejected: does not cover the count byte, because that byte selects how much the CRC covers.
- CanRuns.EveryFrameEndsOnce: assumes the driver reports the busy slot only after accepting it; the residual window the source documents at bus-off (a frame parked inside the driver) is outside the model.
- ResumeBuffer.Outbox.ReplayAfter: is one call without a concurrent send; sends interleaved with a replay on the same socket are not ordered by the model.
- AudioPacket.Receiver.RingPush: is one task at a time; the consumer racing with drop-oldest from another core is not modelled.
- SpiBridge.Bridge.HandleRx: is one task at a time; a concurrent pop of the downlink queue is not modelled, and neither is the data-ready pin.
- Statistics that the sources keep in 32 or 64 bits are unbounded, except the audio gap counter.
- The CAN transmitter's interleavings are a machine on values; `CanPort` ties each atomic step to the context object and its rings. Task notifications and the link-state test are left to the schedule, which may take any enabled step.
- The link-state rejection of the CAN send call is not modelled, and a null argument cannot occur; the receive side, open, close and bus-off back-off are not modelled.
- Battery sampling, thresholds, warnings, reports and the log are not modelled; a check's critical verdict is an input. The fault word is a set of flags.
- Reception and decoding of gateway frames, the router and the published LED state are not modelled; the mirror takes the safety events directly.
- Flap targets arrive as inputs of each period; the rate scale is a real in [0.05, 1], without float rounding; PWM hardware is the pulse value written.
- Bearer times and round-trip budgets are reals; the last raw statistics of a bearer and the decision's text are not kept.
- Session telemetry, the session store's expiry, WebSocket handling and binary frames are not modelled; a send that fails after buffering only loses its transmission.
- Motor control, filtering and kinematics in floating point, hardware drivers, the receive side of the nodes, language and speech engines, simulators and launch files are not modelled.
- Wire structs, rules engine, offline queue, batcher, matcher and black-box ring are not modelled.
