# Closed-loop stepper motor firmware: model and proofs

The firmware drives a stepper motor to an angle asked for by a PC and watches it through an incremental encoder. Four
stateful components work together, and this project models all four, on values and as objects with fields and arrays:

- the **event queue**: a ring of 50 slots with a head, a tail and one fullness flag, drained by a loop that runs each
  handler on its slot in place while interrupts put more events (`EventRing`, `Scheduler`);
- the **encoder driver**: rising edges only, two memory flags, and a home pulse that zeroes the position and suppresses
  the next change (`QuadratureEncoder`), with the shaft that produces the edges (`Shaft`);
- the **packet protocol**: a byte-at-a-time parser, checks deferred over one shared buffer, and a second implementation
  on the PC (`Packets`, `Receiver`, `Inbox`, `IpcDriver`, `Commander`);
- the **application state machine**: calibration, ready, execution (`Application`).

`SystemModel` composes them into one transition system whose moves are single statements of the main loop, encoder
interrupts and received bytes, in any order. `SystemRing` shows that its queue is the ring, `SystemInbox` relates its
packet path to the protocol theorems, `LostWakeUp` runs it into lost wake-ups, `ClosedLoop` adds motor and shaft,
`Convergence` shows that they reach the target, `WorstRuns` drives them to their bound and beyond, and `EndToEnd` adds
the PC tool. `Firmware` puts the objects together, with events as bytes in the ring's slots, and implements
every move of that transition system wherever the main loop is, including between its statements and inside handlers.
`Bytes` holds the arithmetic of bytes and exclusive or.

How the parts are stated: a driver or handler is a class whose methods change its fields in the order of the source and
whose `ensures` equate the new state with a function of the old one (`View()`, `ring`, `model`); the theorems are lemmas
about those functions over all inputs and all runs. Interrupts, the levels of the pins, the position an interrupt changes
under a running handler, the bytes on the line and noise are parameters of the runs. `hide` statements only keep
definitions away from the solver where a proof does not need them.

## Main results

- **Interrupted queue.** With puts between any two statements of the loop the ring is, over every run whatever, an exactly
  described queue. It is a first-in first-out queue of 50 places provided no put overruns the window between the tail
  increment and the flag write: it survives a window if and only if at most 49 events wait afterwards. What an overrun
  leaves is stated exactly, too: nothing, or with the tail transiently at 50 only the newest events.
- **Decoder drift.** After any walk of the shaft with R reversals, from any phase and flags, four times the count is off
  the displacement by at most 2R + 4, and this is attained for every R in both directions. Walks without reversals are
  counted exactly from every phase and with every flag.
- **Home pulse.** It resynchronises whatever came before; in steady motion it is invisible exactly when it arrives just
  before zero.
- **Protocol.** The parser refines a grammar for every byte stream and every split into callbacks; deferred checks, when
  timely, are immediate checks; streams round-trip through quiet noise; an error is missed if and only if its bytes XOR
  to zero; both implementations agree on complete frames. The bytes on the wire are fixed by their values.
- **Whole system.** In every reachable state requests and responses correspond one to one, and while no step or internal
  event was refused a place or dropped by an overrun no wake-up is lost. The moves that do lose one are characterised
  exactly, a run from power-up reaches one, and a command that could be concluded is answered by draining the queue if
  and only if a wake-up is queued. The main loop terminates on every queue and with any finite interference.
- **Refinement.** Every run of the transition system, overruns included, is a run of the ring, and the objects perform
  it, byte for byte, with the interrupts where the run has them.
- **Convergence.** With loop steps, bytes, edges and home pulses interleaved, a command is answered once, correctly, within
  at most 358 counted edges (attained), and within exactly the position difference plus the home flag if no home pulse
  intervenes, provided no counted edge or pulse comes between reaching the target and concluding the command.
- **End to end.** From the bytes on the line to the PC's screen, through every run of the whole system from power-up in
  which checks run in time and no check or command is lost: the commands accepted are commands sent, in
  order, and for each the PC shows a - (a mod 2).

Where the code does not do what its documentation suggests, the model follows the code:

- the flag called `is_empty` means "not full", and two puts in the window described above, both accepted, can empty a
  queue of 49 (`EventRing.OverrunLosesEverything`, `EventRing.TransientOverrunKeepsNewest`);
- a home pulse between the edge that reaches the target and its handling undoes the arrival: what is queued then answers
  the command if and only if the target is zero (`WorstRuns.PulseInTheGap`). An accurate pulse on an anticlockwise shaft
  finds position 179, so commands for 358 and 359 degrees can meet it, and in every revolution again: then no bound
  holds (`WorstRuns.NoBoundWithPulsesInTheGap`). The worst case is kept if and only if the pulse finds the target not
  yet reached (`ClosedLoop.HomeWhileDriving`);
- stray A5 in front of a packet hide it if and only if their number is odd, because the byte after a lone A5 is
  consumed (`Packets.StrayHeaderBytesHidePacket`);
- a late check reads whatever is already stored of the next packet (`Inbox.LateCheckReadsOverwrittenData`);
- the 8-bit position field makes the firmware accept angles such as 512 (`Application.AcceptanceIsExactIff`);
- with all places taken and no other wake-up queued, the edge that reaches the target, or a command that is invalid or
  already at its target, loses its wake-up and hangs, and so does every command that could be concluded when an overrun
  drops what is queued (`SystemModel.MoveKeepsAwakeIff`, `LostWakeUp.WakeUpCanBeLost`,
  `LostWakeUp.AnyIdleCommandCanBeDropped`);
- the PC formats payloads of 0 and of 252 to 255 bytes, which the firmware never reports, and does not hunt for a header
  (`Commander.FirmwareInvertsCommander`, `Commander.CommanderDoesNotHunt`).

Check the project with `dafny verify dfyconfig.toml` (Dafny 4.11).

## Model

| member | source | states |
|---|---|---|
| EventRing.AdvanceRepresents | components/scheduler/scheduler.c:59-70 | each statement of the loop keeps the ring standing for its queue, the tail increment drops the oldest event, and the loop test is true exactly when the queue is not empty |
| EventRing.PutRepresents | components/scheduler/scheduler.c:20-40 | a put that does not overrun is accepted exactly when one of the 50 places is free, counting the slot being handled, and appends exactly its event |
| EventRing.PerformRefines | components/scheduler/scheduler.c:16-71 | one put or loop step keeps ring and abstract queue in step, with the same accepted and handled events |
| EventRing.RingRefinesFifo | components/scheduler/scheduler.c:16-71 | over every interleaving of puts and loop steps without overrun the accepted events are the handled ones followed by the waiting ones: none lost, duplicated or reordered |
| EventRing.SlotIsStableInHandler | components/scheduler/scheduler.c:20-40 | whatever is put while a handler runs, its slot does not change and its events stay queued |
| EventRing.WindowIsSafeIff | components/scheduler/scheduler.c:62-69 | puts between tail increment and flag write join the queue if and only if at most 49 events wait afterwards, also while the tail is transiently 50 |
| EventRing.WindowAdmitsOnePut | components/scheduler/scheduler.c:62-69 | a single put in the window never overruns |
| EventRing.FullWindowRefuses | components/scheduler/scheduler.c:46-49 | with the flag down every put is refused and changes nothing |
| EventRing.FiftyPlaces | components/scheduler/scheduler.h:13-13 | an empty queue takes fifty events, the fiftieth included, and refuses the next |
| EventRing.PutShows | components/scheduler/scheduler.c:20-49 | a put does to the ring what it does to the exact queue: stored, refused, or at the fiftieth place in the window the loss of everything queued |
| EventRing.AdvanceShows | components/scheduler/scheduler.c:59-70 | so does each statement of the loop, whose test is true exactly when the exact queue is not empty |
| EventRing.RingIsQueue | components/scheduler/scheduler.c:16-71 | over every run of puts and loop steps, with no condition, the ring is the exact queue |
| EventRing.OverrunLosesEverything | components/scheduler/scheduler.c:62-69 | when puts in the window take the fiftieth place with the tail below 50, the loop sees an empty queue whatever else is put |
| EventRing.TransientOverrunKeepsNewest | components/scheduler/scheduler.c:31-67 | with the tail transiently at 50 exactly the puts after the overrunning one are left |
| EventRing.EmptyRingRefines | components/scheduler/scheduler.c:7-14 | after initialisation the ring stands for the empty queue |
| Scheduler.Scheduler.constructor | components/scheduler/scheduler.c:3-5 | the static initialiser gives an empty ring |
| Scheduler.Scheduler.Init | components/scheduler/scheduler.c:7-14 | resets head, tail and flag and leaves the slots |
| Scheduler.Scheduler.EventPut | components/scheduler/scheduler.c:16-55 | the three statuses, and the slot, head and flag of a successful put; bytes not written are those of the slot's last event |
| Scheduler.FilledBytes | components/scheduler/scheduler.c:20-40 | byte by byte the slot has the new data and behind them, or everywhere if there are none, what it held before |
| Scheduler.Scheduler.EventPutAll | components/scheduler/scheduler.c:16-55 | a burst of puts applies them in order |
| Scheduler.Scheduler.Iterate | components/scheduler/scheduler.c:61-69 | one iteration hands out the slot at the tail and, with puts between all statements, leaves the ring the value-level iteration gives |
| Scheduler.Scheduler.Execute | components/scheduler/scheduler.c:57-71 | with any finite interference the loop ends, with an empty queue; it performs a run of the ring machine and takes out exactly the slots of that run |
| Scheduler.Scheduler.IncrementTail | components/scheduler/scheduler.c:62-62 | the ring after the tail increment, where the tail may be 50 |
| Scheduler.Scheduler.WrapTail | components/scheduler/scheduler.c:64-67 | the ring after the wrap |
| Scheduler.Scheduler.RaiseFlag | components/scheduler/scheduler.c:69-69 | the ring after the flag is written |
| Scheduler.BurstIsRun | components/scheduler/scheduler.c:16-55 | a burst of requests is a run of put acts, oversized requests being none |
| Scheduler.IterationIsRun | components/scheduler/scheduler.c:59-70 | an interrupted iteration is a run of the ring machine that calls the oldest event's handler |
| QuadratureEncoder.EncoderDriver.GetPosition | drivers/encoder/encoder_drv.c:40-45 | returns the position |
| QuadratureEncoder.EncoderDriver.SetPosition | drivers/encoder/encoder_drv.c:47-59 | accepts exactly positions below 180 and otherwise changes nothing |
| QuadratureEncoder.EncoderDriver.IncrementPosition | drivers/encoder/encoder_drv.c:221-238 | the branches compute the modulo formula of the comment |
| QuadratureEncoder.EncoderDriver.DecrementPosition | drivers/encoder/encoder_drv.c:239-256 | the branches compute the modulo formula of the comment |
| QuadratureEncoder.EncoderDriver.TransitionsCallback | drivers/encoder/encoder_drv.c:61-219 | position and flags follow the signed count of the edge; the step handler is called exactly for counted edges, the home handler exactly for home pulses |
| QuadratureEncoder.OnlyRisingEdgesMatter | drivers/encoder/encoder_drv.c:65-218 | falling edges and unconfigured pins change and count nothing |
| QuadratureEncoder.PositionIsCountModulo | drivers/encoder/encoder_drv.c:70-138 | without home pulses the position is the start plus the signed count, less the edge a home flag eats, modulo 180 |
| QuadratureEncoder.HomeResynchronises | drivers/encoder/encoder_drv.c:176-184 | after the last home pulse of any run the position is the signed sum of counted edges leaving out the first, modulo 180 |
| QuadratureEncoder.TracksStep | drivers/encoder/encoder_drv.c:70-184 | one interrupt keeps the relation between a run and the same run without home pulses |
| QuadratureEncoder.HomeIsTransparent | drivers/encoder/encoder_drv.c:84-184 | with accurate home pulses every counted edge leaves the position of the run without pulses, over any number of revolutions |
| QuadratureEncoder.HomeIsTransparentIff | drivers/encoder/encoder_drv.c:180-184 | a home pulse is invisible to later positions if and only if it finds the position just before zero |
| Shaft.DriftStep | drivers/encoder/encoder_drv.c:72-138 | one quarter step moves the drift by no more than the potential allows, plus 2 at a reversal |
| Shaft.DriftInvariant | drivers/encoder/encoder_drv.c:72-138 | the two-sided drift potential along every walk, from every phase and flags |
| Shaft.DriftIsBounded | drivers/encoder/encoder_drv.c:72-138 | after any walk with R reversals four times the count differs from the displacement by at most 2R + 4 |
| Shaft.DriftBoundIsAttained | drivers/encoder/encoder_drv.c:72-138 | for every R, even or odd, some walk with R reversals drifts by exactly 2R + 4 |
| Shaft.LowerDriftBoundIsAttained | drivers/encoder/encoder_drv.c:72-138 | and for every R some walk falls behind by exactly 2R + 4 |
| Shaft.MirrorLaw | drivers/encoder/encoder_drv.c:72-138 | mirroring the shaft, exchanging the flags and reversing every direction changes the sign of the count of every walk |
| Shaft.PositionFollowsCount | drivers/encoder/encoder_drv.c:221-256 | the reported position is the start plus the walk's count modulo 180 |
| Shaft.SteadyWalkCountsExactly | drivers/encoder/encoder_drv.c:72-138 | from A = B = 0 a reversal-free walk of n quarter steps counts ceil(n/4) in its direction |
| Shaft.SteadyWalkFromAnywhere | drivers/encoder/encoder_drv.c:72-138 | the exact count of a reversal-free walk from every phase and with every flag, in both directions |
| Packets.ScanSkipsQuiet | components/ipc/ipc.c:96-132 | a stretch without frames that leaves the hunt at its start changes nothing for what follows |
| Packets.WireFormat | components/ipc/ipc.c:34-53 | a packet of 1..251 bytes is A5, 5A, the length, the data and their XOR, and A5, 5A, a length and as many data bytes and a check byte are read as one frame |
| Bytes.XorIsBitwise | components/ipc/ipc.c:42-53 | each binary digit of the check is the sum of the digits modulo 2 |
| Packets.ScanReadsEncoded | components/ipc/ipc.c:34-53 | a sent packet is read back as one intact frame, whatever follows |
| Packets.ScanInvertsStream | components/ipc/ipc.c:34-53 | any sequence of payloads of 1..251 bytes, framed and separated by quiet noise, is read back exactly |
| Packets.StreamThroughPlainNoise | components/ipc/ipc.c:34-132 | in particular through noise free of A5 |
| Packets.StrayHeaderBytesHidePacket | components/ipc/ipc.c:107-115 | behind quiet noise and k stray A5 a packet with any payload is found if and only if k is even, and then it alone |
| Packets.ScannedFramesFit | components/ipc/ipc.c:94-155 | every frame found is a payload of 1..251 bytes and at least four bytes shorter than the stream |
| Packets.ErrorIsMissedIffItXorsToZero | components/ipc/ipc.c:180-198 | a corrupted packet passes the check if and only if all error bytes XOR to zero |
| Inbox.ErrorIsReportedIff | components/ipc/ipc.c:180-198 | the report is OK if and only if the error bytes XOR to zero, and corrupted otherwise, with the data received |
| Packets.OneBadByteIsNoticed | components/ipc/ipc.c:180-198 | every corruption of exactly one byte is reported |
| Packets.OddBitErrorsAreNoticed | components/ipc/ipc.c:180-198 | every odd number of flipped bits is reported |
| Receiver.Receive | components/ipc/ipc.c:94-155 | every byte keeps offset, length and header index in range and writes the buffer only in the data state; a job is queued only at the check byte, with a size of 1..251 |
| Receiver.HeaderOnTheWire | components/ipc/ipc.c:94-132 | a hunting parser waits for A5, drops back unless 5A follows, and then expects 1..251 data bytes or hunts again |
| Receiver.RunStoresData | components/ipc/ipc.c:134-144 | data bytes lie one after the other in the buffer and complete nothing before the last |
| Receiver.ParserRefinesScan | components/ipc/ipc.c:94-155 | from the hunt the state machine completes exactly the frames of the grammar, for every byte stream |
| Receiver.CallbackSplitIsInvisible | components/ipc/ipc.c:62-76 | splitting the stream over callbacks changes neither frames nor final state |
| Receiver.EverySplitRefinesScan | components/ipc/ipc.c:58-155 | the frames are those of the grammar for every split of the stream into callbacks |
| Receiver.IdleIsReached | components/ipc/ipc.c:94-155 | from every state idle is first reached after an exactly given number of bytes, at most 253 |
| Inbox.ActKeepsReports | components/ipc/ipc.c:134-205 | a timely action neither loses nor changes an owed report and owes one more per completed frame |
| Inbox.DeferredCheckRefinesScan | components/ipc/ipc.c:146-205 | deferred checks over the shared buffer, when timely, report what immediate checks of the grammar's frames would |
| Inbox.StreamRoundTrip | components/ipc/ipc.c:34-205 | exactly the payloads sent are reported, in order and with status OK |
| Inbox.LateCheckReadsOverwrittenData | components/ipc/ipc.c:136-188 | after any number of bytes of the next packet a late check reports what is stored of it in place of its own data, and is right if and only if the two agree there |
| IpcDriver.IpcReceiver.StateMachineEventHandler | components/ipc/ipc.c:79-173 | the in-place update and the queued job are those of the parser on values, within the buffer's bounds |
| IpcDriver.IpcReceiver.DataAvailableCallback | components/ipc/ipc.c:58-77 | the callback loop leaves the parser's state after all bytes and queues one job per completed frame, in order |
| IpcDriver.IpcReceiver.PostProcess | components/ipc/ipc.c:175-205 | the loop's XOR decides the status against the stored data, which are reported |
| IpcDriver.SendDataPacket | components/ipc/ipc.c:22-56 | the three statuses, and exactly the packet's bytes for a payload of 1..251 bytes |
| Commander.CalculateCrc | pc_stepper_motor_commander/ipc.py:20-24 | the loop computes the XOR of all bytes |
| Commander.SerialLink.ReceiveDataPacket | pc_stepper_motor_commander/ipc.py:35-59 | read by read, the result and the unread rest are those of the reception on values |
| Commander.SerialLink.SendDataPacket | pc_stepper_motor_commander/ipc.py:26-33 | writes the formatted packet, or raises for more than 255 bytes |
| Commander.SendersAgree | pc_stepper_motor_commander/ipc.py:9-27 | with its own constants the PC writes what the firmware would |
| Commander.ReceptionCases | pc_stepper_motor_commander/ipc.py:35-55 | exactly when a reception is rejected, returned or still waiting, and what each leaves unread |
| Commander.ReceptionIsFinal | pc_stepper_motor_commander/ipc.py:35-55 | a decided reception stays so whatever follows, and leaves that unread |
| Commander.NextCallReadsOn | pc_stepper_motor_commander/ipc.py:37-39 | after two bytes that are no header the next call reads the packet behind them |
| Commander.ImplementationsAgree | pc_stepper_motor_commander/ipc.py:35-59 | on every complete frame the PC returns a non-empty payload if and only if the firmware reports it intact |
| Commander.CommanderInvertsSender | pc_stepper_motor_commander/ipc.py:35-59 | the PC reads back the firmware's payload and leaves the rest of the line unread |
| Commander.FirmwareInvertsCommander | pc_stepper_motor_commander/ipc.py:26-27 | among all payloads the PC can format the firmware reports intact exactly those of 1..251 bytes |
| Commander.CommanderDoesNotHunt | pc_stepper_motor_commander/ipc.py:37-39 | behind any quiet noise, with or without A5 in it, the firmware still gets a packet, the PC does if and only if there is no noise |
| Application.UserApplication.StateMachineEventHandler | application/user_application.c:63-249 | the nested switches have the effect of the transition function: state, saved parameters, motor, event put, response |
| Application.AcceptanceByHalfAngle | drivers/encoder/encoder_drv.h:22-24 | conversion, truncation to 8 bits and validity check amount to half the angle modulo 256 being below 180 |
| Application.AcceptanceIsExactIff | application/user_application.c:125-127 | the check accepts exactly the angles below 360 modulo 512, so it means "below 360" if and only if the angle is below 512 or at least 360 modulo 512 |
| Application.AngleOutsideCircleIsAccepted | application/user_application.c:125-127 | 512 degrees is accepted as 0 |
| Application.CircleAngleRoundsDown | drivers/encoder/encoder_drv.h:22-23 | an angle of 0..359 is answered with OK and the even angle just below |
| Application.PositionSurvivesAngle | drivers/encoder/encoder_drv.h:22-23 | position to angle to position is the identity for every resolution dividing 360 |
| Application.RecordKeepsConsistent | application/user_application.c:74-247 | one event, at any position, keeps requests and responses in correspondence |
| Application.CalibrationLastsUntilHome | application/user_application.c:74-103 | over every run from power-up the calibration lasts exactly until a home event is handled, with the motor clockwise from the first internal event on |
| Application.ReadyAcceptsTypeZero | application/user_application.c:112-175 | ready accepts exactly commands of type 0, and the motor starts exactly for a valid position other than the one read, in its direction |
| Application.EveryRunIsConsistent | application/user_application.c:63-249 | over every event sequence and all position changes: commands minus responses is 1 exactly in execution, the i-th response is the one the i-th accepted command must get, OK is sent only at the position asked for, the motor is off in ready |
| SystemModel.EncoderIrqKeepsAwakeIff | drivers/encoder/encoder_drv.c:147-208 | an encoder interrupt, also between a handler's read and its branch, loses a wake-up if and only if its put is refused, it reaches the target and no other wake-up is queued, or its put overruns and a command can be concluded |
| SystemModel.ActKeepsAwakeIff | application/user_application.c:136-157 | acting on a position, outdated or not, loses a wake-up if and only if it accepts a command that needs no edge with all places taken and no other wake-up queued |
| SystemModel.ApplicationPutsIff | application/user_application.c:127-157 | an application event puts the internal event if and only if it accepts a command that is invalid or for the position read, and otherwise nothing |
| SystemModel.RunIsApplicationRun | application/user_application.c:63-249 | every run of the system is, for the application, a run of the events it handles with the positions it reads |
| SystemModel.SystemCalibrates | application/user_application.c:74-103 | so the calibration lasts until the first home event in every run of the system |
| SystemModel.CommandLayout | application/user_application_messages.h:31-35 | the first byte is the type, the next two the angle, least significant first |
| SystemModel.MoveKeepsAwakeIff | components/scheduler/scheduler.c:62-69 | exactly these moves lose a wake-up: an overrunning put of any kind while a command can be concluded, and a refused put of a needed step or internal event with no other queued |
| SystemModel.CommandKeepsWakeUpIff | application/user_application.c:127-157 | an invalid command, or one for the position shown, keeps its wake-up if and only if fewer than 50 tasks are queued or a step or internal event is queued behind it |
| SystemModel.EveryReachableStateIsSafe | application/user_application.c:136-222 | in every state reachable by any interleaving from any encoder and parser state at power-up, requests and responses correspond and, unless a step or internal event was refused or dropped by an overrun, no wake-up is lost |
| SystemModel.ServeFrontIsSixSteps | components/scheduler/scheduler.c:59-70 | serving the front task without interrupts is six steps of the main loop |
| SystemModel.ServeFrontIsLighter | application/user_application.c:37-43 | every handler call makes the queue strictly lighter although it may put another event |
| SystemModel.Calls | components/scheduler/scheduler.c:59-70 | draining takes no more handler calls than the weight of the queue: 3 per check, 2 per command, 1 per other event |
| SystemInbox.WeightIsThreeTwoOne | components/scheduler/scheduler.c:59-70 | the weight is 3 for each check, 2 for each command and 1 for each other event |
| SystemModel.WakeUpIsAnswered | application/user_application.c:199-220 | draining a queue with a pending wake-up sends the response to the command under way |
| SystemModel.DrainAnswersIffAwake | application/user_application.c:199-220 | draining answers a command that can be concluded if and only if a wake-up is queued |
| SystemModel.ReachableCommandIsAnswered | application/user_application.c:136-222 | in every reachable state in which no wake-up was refused or dropped a command that is invalid or at its target is answered by draining the queue |
| LostWakeUp.AnyIdleCommandCanHang | application/user_application.c:127-157 | in every idle ready state a command that needs no edge hangs if 49 packets arrive between its handler's read and its put |
| LostWakeUp.AnyIdleCommandCanBeDropped | components/scheduler/scheduler.c:62-69 | in every such state two packets in the window after 47 others, all accepted, make the command hang by an overrun |
| LostWakeUp.WakeUpCanBeLost | application/user_application.c:127-133 | a run from power-up ends with a command that nothing queued will answer |
| SystemRing.MoveIsQueueRun | components/scheduler/scheduler.c:16-71 | each move of the system does to its queue what the exact queue of the ring does, refusals and overruns included |
| SystemRing.RunIsRingRun | components/scheduler/scheduler.c:16-71 | every run of the system whatever is a run of the ring, which ends with the system's queue and flag, at the same statement |
| SystemRing.PowerUpRunsOnRing | components/scheduler/scheduler.c:16-71 | in particular every run from power-up |
| SystemRing.AcceptedAreCalledOrWaiting | components/scheduler/scheduler.c:16-71 | in every run without an overrun the tasks accepted are those called, in order, followed by those waiting |
| SystemInbox.MoveRefinesInbox | components/ipc/ipc.c:146-205 | each move of the system is at most one action of the inbox |
| SystemInbox.RunRefinesInbox | components/ipc/ipc.c:58-205 | every run of the system in which no check is refused or dropped is a run of the inbox on the bytes received |
| SystemInbox.SystemReportsPayloads | components/ipc/ipc.c:34-205 | the stream round trip holds in the running system |
| SystemInbox.IntactPacketBecomesCommand | application/user_application.c:33-48 | an intact packet of any size queues the command in its first three bytes, filled up with stale bytes if it is shorter; a corrupted one queues nothing |
| SystemInbox.RunConservesCommands | application/user_application.c:33-48 | over every run that loses no command the commands handled and those waiting are those queued, in order |
| SystemInbox.SystemQueuesCommands | components/ipc/ipc.c:146-205 | the commands handled and waiting are, in order, those of the payloads on the line |
| SystemInbox.AcceptedAreHandled | application/user_application.c:112-158 | the commands accepted are some of those handled, in order |
| ClosedLoop.MoveAllIsRun | application/user_application.c:28-31 | every run of the plant is a run of the whole system |
| ClosedLoop.SettledIsInTime | application/user_application.c:199-220 | handling every step and internal event before the next edge or pulse is always in time |
| ClosedLoop.CountedEdge | drivers/encoder/encoder_drv.c:70-145 | each counted edge on the way takes exactly one off the remaining count and at least one off the worst case |
| ClosedLoop.HomeWhileDriving | drivers/encoder/encoder_drv.c:176-184 | a home pulse at least 180 counted edges after the last keeps the worst case if and only if the target is not yet reached |
| ClosedLoop.StepWhileDriving | drivers/encoder/encoder_drv.c:70-145 | every quarter step in the drive direction that comes in time keeps the measure and reaches a counted edge within four |
| ClosedLoop.ByteWhileDriving | application/user_application.c:33-48 | a byte at any point, even one that completes a command, leaves the command under way as it is |
| ClosedLoop.LoopWhileDriving | application/user_application.c:199-220 | a loop step at any point leaves it as it is, or answers it on a position read at the target |
| ClosedLoop.WorstCaseIsBounded | application/user_application.c:136-222 | the worst case is never more than 358 counted edges |
| Convergence.DrivingConverges | application/user_application.c:136-222 | on every run of quarter steps, spaced home pulses, bytes and loop steps, with edges and pulses in time and no wake-up lost, the command is answered once by some prefix within the worst case, and after exactly the remaining count if no pulse intervenes, or is under way within it; a long run that ends settled has answered |
| Convergence.TargetIsAnswered | application/user_application.c:199-220 | a target that is reached is answered by draining the queue |
| ClosedLoop.CommandStartsDriving | application/user_application.c:136-158 | an accepted command drives toward its target, with the difference of the positions plus the home flag to go if the encoder has not moved since the read |
| ClosedLoop.CommandStandsAtTarget | application/user_application.c:153-157 | a command for the position shown leaves the motor off and a wake-up queued |
| Convergence.StandingIsAnswered | application/user_application.c:199-220 | which every run answers or keeps |
| Convergence.EveryCommandIsAnswered | application/user_application.c:112-222 | every command of 0..359 is answered by the very next answer, with OK and its even angle, on every long enough run as above that ends settled, and the answer stays |
| WorstRuns.WorstCaseIsAttained | application/user_application.c:136-222 | a regular run from 0 to 179 still drives after 357 counted edges, with one more to go |
| WorstRuns.PulseInTheGap | drivers/encoder/encoder_drv.c:176-184 | a home pulse between the edge that reaches the target and its handling leaves a whole distance from zero and one more edge to go, and the command unanswered by what is queued if and only if the target is not zero |
| WorstRuns.NoBoundWithPulsesInTheGap | drivers/encoder/encoder_drv.c:176-184 | with pulses exactly 180 counted edges apart that all fall there, runs of any number of revolutions give no answer |
| Firmware.EventSurvivesSlot | application/user_application.h:41-55 | an event survives its encoding as bytes in a slot |
| Firmware.SlotLayout | application/user_application.h:25-55 | the kinds of events are 0 to 3, a command follows as in its packet, and a check carries size and check byte |
| Firmware.Firmware.Init | application/user_application.c:8-26 | initialisation leaves only the event that starts the calibration, and encoder and parser as interrupts have made them |
| Firmware.Firmware.EncoderInterrupt | drivers/encoder/encoder_drv.c:61-219 | wherever the main loop is, the interrupt on the objects is the transition system's move |
| Firmware.Firmware.ByteInterrupt | components/ipc/ipc.c:58-173 | wherever the main loop is, a received byte on the objects is the transition system's move |
| Firmware.Firmware.RunHandler | application/user_application.c:33-249 | the handler on the slot's bytes, acting on the position it read, is the transition system's step, responses included |
| Firmware.Firmware.SentOnTheWire | application/user_application.c:213-217 | after every run the bytes sent are the responses to the accepted commands, with type 0, status 0 or 1 and the angle, least significant byte first |
| Firmware.Firmware.Perform | components/scheduler/scheduler.c:57-71 | every move of the transition system is implemented by the objects |
| Firmware.Firmware.PerformAll | components/scheduler/scheduler.c:57-71 | every interleaving whatever of loop statements, encoder interrupts and bytes is performed by the objects |
| Firmware.Firmware.ServeFront | components/scheduler/scheduler.c:61-69 | one loop iteration with interrupts after each of its six statements, on the ring's bytes, is the transition system's run |
| Firmware.Firmware.Execute | components/scheduler/scheduler.c:57-71 | with any finite interference the loop terminates with an empty queue, having performed a run of the transition system; without, in the drained state after the counted handler calls, at most the weight of the queue |
| EndToEnd.ShowsResponses | pc_stepper_motor_commander/main.py:46-56 | reading once per response the PC shows the angle or the rejection of each |
| EndToEnd.SentResponses | application/user_application.c:213-217 | the same on the system model: the i-th frame sent answers the i-th accepted command, byte for byte |
| EndToEnd.CommandFrame | pc_stepper_motor_commander/main.py:41-41 | the command is 0 and the angle, least significant byte first |
| EndToEnd.NinetyDegrees | pc_stepper_motor_commander/main.py:41-44 | 90 degrees is A5 5A 03 00 5A 00 5A on the wire and is read as itself |
| EndToEnd.ShownCases | pc_stepper_motor_commander/main.py:46-59 | what is shown for every reception |
| EndToEnd.CorruptedResponseIsImproper | pc_stepper_motor_commander/main.py:46-59 | a response with errors is shown as no proper response if and only if the errors do not XOR to zero, and the rest of the line stays unread |
| EndToEnd.SentCommandsAreAccepted | application/user_application.c:33-158 | over every run of the system on a line that carries commands through quiet noise, the accepted commands are commands sent, in order |
| EndToEnd.CommandedAnglesAreShown | pc_stepper_motor_commander/main.py:41-56 | for commands of 0..359 through quiet noise and any such run that completes the last accepted one, the PC shows a - (a mod 2) for each command accepted |

## Left out

- Pin set-up, PWM, clock, watchdog and USB calls: hardware; the motor is off or turning in one of two directions.
- `stepper_motor_drv_init` and the mode-pin helpers: one division and finite masks.
- Scheduled encoder event handling: the application does not use it, and its home branch queues the step handler.
- Preemption inside a put: a put is one atomic step, although the source tests the flag before it disables interrupts.
- Bytes arriving during the loop of a queued check: the check reads the buffer at one instant in `SystemModel`.
- Real time, baud rate, and blocking or failing serial reads on the PC: the line is a finite byte sequence.
- Argument parsing and printing of the PC tool; its range check is the hypothesis 0..359.
- Packets of one or two data bytes on the end-to-end line: the application completes their command from stale bytes of
  the buffer, as `SystemInbox.IntactPacketBecomesCommand` says; the line of `EndToEnd` carries commands of three bytes.
- Liveness when the shaft is turned from outside, when the motor does not turn, or when wake-ups are lost: the code has
  no recovery; the convergence theorems have these as hypotheses, as they have home pulses at least 180 edges apart and
  a main loop that concludes a command before the next counted edge or pulse. What a pulse before that does is proved.
- Scheduler.Scheduler.Execute: takes the puts between its statements from its argument and hands out the slots in place
  of calling them, since a value of the model cannot be a function pointer; `Firmware` calls the real handlers.
- Interrupts during the initialisation: it is one step, whose result allows any encoder and parser state.
