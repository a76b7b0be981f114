# Robot war firmware: fleet control

A Dafny model of the fleet-control protocol of the robot war firmware, with proofs.
A gateway keeps a registry of robots, takes versioned orders from a cloud shadow,
and moves all robots at once: each robot is sent its movement, acknowledges it, and
when every robot has acknowledged, a broadcast sets them off. Gateway and mesh bridge
are two chips joined by a framed UART link.

| file | what it covers |
|---|---|
| `Bytes.dfy` | integer widths, byte orders, shared records |
| `Framing.dfy` | the frame format and its pure decoder |
| `UartReceiver.dfy` | the byte-at-a-time receiver of either chip and its heap |
| `RxBuffers.dfy` | the two receive buffers the callback alternates, in front of it |
| `UartTransmitter.dfy` | senders, transmit thread, semaphore and driver callbacks; wire and decoder |
| `UartLink.dfy` | transmitter, wire, receive buffers and decoder together |
| `MeshModels.dfy` | the movement and RGB client and server models |
| `Bridge.dfy`, `Reports.dfy` | commands down and reports up, byte for byte |
| `RobotNames.dfy` | the printed identity of a robot |
| `RobotRegistry.dfy` | the robot module as a function of its events |
| `RobotHistory.dfy`, `RobotDeltas.dfy`, `RobotRecords.dfy` | over every run: states and the barrier; deltas and movements; every other field, and the exact output |
| `RobotModule.dfy` | the robot module as a list of records updated in place |
| `Fleet.dfy` | the barrier as a distributed system, and its safety |
| `FleetRuns.dfy` | runs that show what the barrier lets happen |
| `FleetLiveness.dfy`, `OnceDelivery.dfy` | when the network alone can still bring about the broadcast, with and without packets delivered again |
| `Composition.dfy` | the barrier's network steps tied to the byte paths |
| `Motor.dfy`, `Leds.dfy` | the robot's timed machines |
| `Cloud.dfy` | the gateway's connection machine |

Each machine has a step function on values and a run over arbitrary sequences of
steps, about which the theorems speak. The class beside it has the fields and
handlers of the C module; every method states that it makes exactly one such step,
and the public ones keep a `Valid()` that holds the invariants proved of the steps.
`dafny verify dfyconfig.toml` checks the project.

## How the surroundings are modelled

- Kernel fifos and message queues hold message values in order. Zephyr reserves the
  first word of a fifo item for itself, where this code keeps the length; the model
  takes the fifo to leave items alone.
- A delayable work item is a pending flag with its delay and a firing step;
  scheduling one that is pending does nothing, rescheduling replaces it. Work items
  and handlers are atomic against each other.
- `k_malloc` and `uart_tx` succeed, and the driver does not abort a transfer. It
  reports and releases a full receive buffer before it asks for another.
- The network of the barrier is the set of everything ever sent: anything in it may
  be delivered at any time, any number of times, or never. This covers the UART
  link, the receive queue and the drops of both. Robots do not reboot. A robot reports
  each movement handed to its motor at most once, counting as the motor module does
  (`Motor.MovesAccountedFor`, `Motor.Conservation`).
- The event manager and a module's message queue are one fifo. Where the code does
  not wait for space, dropped events are simply events not handled; the cloud
  machine models its 20 entries explicitly, because a lost timeout matters there.
- Signed 32-bit overflow wraps, as C leaves `abs` of -2^31 undefined.
- A delta that names a robot's movement carries both fields, and one that names its
  LED carries all four, since the code copies a local that is otherwise only partly
  assigned. A name matches exactly; cJSON ignores case.
- The failures of the acknowledgement and telemetry handlers on an unknown address
  are a `faulted` state in the specification and a precondition of the methods.

## Where the code does less than one would expect

- Payloads above 255 bytes are cut on the wire, because both ends use the low byte
  of the length; the stream stays in step (`Framing.StreamRoundTrip`).
- The gateway keeps one heap block for every message it receives
  (`UartReceiver.Receiver.HeapWhenIdle`).
- A robot that is still CONFIGURED is not reset by a newer delta, so the broadcast
  can set off an older movement (`FleetRuns.StaleMovementIsCleared`); it sets off the
  one on record for certain exactly when no other was ever sent to that robot
  (`Fleet.ClearedMovementIsCertain`).
- The late report of an earlier move takes a robot that has acknowledged its next one
  back to READY, and the broadcast may then never come (`FleetRuns.LateReportPreventsClear`;
  exactly when is `OnceDelivery.LateReportPrevents`).
- Telemetry from a robot that never registered is dereferenced unchecked, and nothing
  else faults (`Fleet.OnlyStrayTelemetryFaults`). Only a READY broadcast can provoke it
  (`Fleet.FaultNeedsReady`), and one does (`FleetRuns.StrayReportFaults`).
- Two robots can share a name, since bits 48..63 of the identity are never printed and
  zeros in front cost more digits; exactly when is `RobotNames.NamesCollide`.
- Angles of -180 and below, other than -2^31, turn right instead of left (`Motor.ClampSign`).
- A cloud disconnect is not handled while LTE stays up (`Cloud.CloudLossUnnoticed`,
  with the exact condition in `Cloud.OnlyLteLossEndsConnection`).
- A disconnect that fails keeps the retry counter, so a machine out of attempts stays
  so across a loss of LTE (`Cloud.ExhaustedReached`, `Cloud.FailedDisconnectTraps`);
  exactly what frees it is `Cloud.TrappedExactly`.
- A timeout that meets a full queue is never repeated (`Cloud.LostTimeoutStrands`);
  `Cloud.NeverStuck` says that nothing else leaves the machine waiting for nothing
  while attempts remain.

## Model

| member | source | states |
|---|---|---|
| `Framing.FrameBytes` | applications/robot_wars/gateway/src/modules/mesh_uart_module.c:57-82 | where each byte of a frame comes from: four little-endian header words, then the payload |
| `Framing.DecodeIff` | applications/robot_wars/gateway_bridge/src/uart_handler.c:35-86 | a byte stream parses as a list of messages and a remainder exactly when it is their encoding followed by an unfinished frame: one parse, both directions, for streams no sender produced too |
| `Framing.DecodeSnoc` | applications/robot_wars/gateway_bridge/src/uart_handler.c:67-82 | one more byte extends the unfinished frame, and finishes it exactly when that reaches header plus delimited payload |
| `Framing.DecodeMonotone` | applications/robot_wars/gateway_bridge/src/uart_handler.c:77-82 | later bytes never change messages already rebuilt |
| `Framing.StreamRoundTrip` | applications/robot_wars/gateway/src/modules/mesh_uart_module.c:57-132 | sending any list of messages and decoding the bytes gives the list cut to the wire size, with nothing left over; it is the list itself if and only if no payload exceeds 255 bytes |
| `Framing.StreamPrefix` | applications/robot_wars/gateway/src/modules/mesh_uart_module.c:98-131 | after any prefix of the bytes, the messages rebuilt are a prefix of the list |
| `UartReceiver.Receiver.RxRdy` | applications/robot_wars/gateway_bridge/src/uart_handler.c:35-86 | over every byte stream, the emitted messages and the partially filled header and payload buffers equal what the pure decoder gives; header writes stay in offsets 0..15, payload writes in the allocation, and the length stays below header plus payload |
| `UartReceiver.Receiver.Accept` | applications/robot_wars/gateway_bridge/src/uart_handler.c:44-73 | the byte, first or later, extends the frame assembled so far by itself; a first byte also sets length and allocations |
| `UartReceiver.Receiver.StartMessage` | applications/robot_wars/gateway_bridge/src/uart_handler.c:44-66 | the first byte fixes the payload length and allocates record and payload; the two chips differ on an empty payload |
| `UartReceiver.Receiver.StoreByte` | applications/robot_wars/gateway_bridge/src/uart_handler.c:67-73 | one byte lands at its offset of header or payload and nothing else changes |
| `UartReceiver.Receiver.Finish` | applications/robot_wars/gateway_bridge/src/uart_handler.c:77-82 | the finished frame joins the queue as the message it spells and the machine is idle |
| `UartReceiver.Receiver.RxGet` | applications/robot_wars/gateway_bridge/src/uart_handler.c:221 | the receive thread takes the oldest message; no block changes hands unaccounted |
| `UartReceiver.Receiver.RxFree` | applications/robot_wars/gateway_bridge/src/uart_handler.c:229-230 | a handled message gives its blocks back; on the gateway (mesh_uart_module.c:352) only its record |
| `UartReceiver.Receiver.HeapInUse` | applications/robot_wars/gateway_bridge/src/uart_handler.c:44-86 | at any time the blocks in use are two for each message queued, handled or being assembled, one if it is empty on the bridge, and on the gateway one more for every message ever handled |
| `UartReceiver.Receiver.HeapWhenIdle` | applications/robot_wars/gateway_bridge/src/uart_handler.c:219-231 | idle with every message handled, allocations and frees balance if and only if this is the bridge or nothing was ever received; the handled messages encode the whole stream |
| `RxBuffers.BytesInOrder` | applications/robot_wars/gateway_bridge/src/uart_handler.c:112-133 | for every number of swaps of the two one-byte buffers: the bytes passed on are those heard on the line, in order, short of at most two still held; no buffer is in two places |
| `RxBuffers.ResponseIsFree` | applications/robot_wars/gateway_bridge/src/uart_handler.c:118-127 | the buffer a request is answered with is not the one being filled if and only if the previous buffer has been released |
| `RxBuffers.StopsExactly` | applications/robot_wars/gateway_bridge/src/uart_handler.c:118-127 | reception ends, for good, exactly when a byte completes before its successor buffer was handed over |
| `RxBuffers.StreamPasses` | applications/robot_wars/gateway_bridge/src/uart_handler.c:112-133 | a driver answered in time never stops: every stream of bytes, of any length, is passed on byte for byte |
| `RxBuffers.RxPath.BufRequest` | applications/robot_wars/gateway_bridge/src/uart_handler.c:118-127 | the answer to a request is a buffer that is not being filled |
| `RxBuffers.RxPath.LineByte` | applications/robot_wars/gateway_bridge/src/uart_handler.c:209 | the driver fills one buffer and swaps; no byte not yet passed on is lost |
| `RxBuffers.RxPath.RxReported` | applications/robot_wars/gateway_bridge/src/uart_handler.c:112-133 | the byte machine receives exactly the oldest byte held, and the buffer is noted as released |
| `UartTransmitter.RunInv` | applications/robot_wars/gateway_bridge/src/uart_handler.c:234-256 | over every interleaving: in-flight count plus semaphore is 1 exactly while the thread waits; wire, rest of the buffer in flight and fifo spell the messages sent, in order; every buffer is queued, in flight or freed, once |
| `UartTransmitter.NeverFreedTwice` | applications/robot_wars/gateway_bridge/src/uart_handler.c:94-105 | frees happen in allocation order, each buffer once, never while queued or in flight |
| `UartTransmitter.Progress` | applications/robot_wars/gateway_bridge/src/uart_handler.c:241-255 | no deadlock: until drained some thread or driver step is enabled, and each takes work off a measure |
| `UartTransmitter.DrainedMeansDelivered` | applications/robot_wars/gateway_bridge/src/uart_handler.c:241-255 | once drained, the wire carries exactly what was sent and every buffer is freed |
| `UartTransmitter.LinkDelivers` | applications/robot_wars/gateway_bridge/src/uart_handler.c:234-256 | the two ends joined: at every moment the other chip has rebuilt a prefix of what was sent, and all of it once drained |
| `UartLink.LinkCrosses` | applications/robot_wars/gateway_bridge/src/uart_handler.c:112-133 | transmitter, two receive buffers and decoder joined, over every interleaving on both chips: the messages rebuilt are a prefix of those sent, and all of them with nothing left over if and only if all their bytes were passed on, as when the link is drained and the buffers are empty |
| `UartTransmitter.Transmitter.Fill` | applications/robot_wars/gateway/src/modules/mesh_uart_module.c:57-82 | the buffer uart_send allocates and fills holds the laid-out message, whatever the over-allocation |
| `UartTransmitter.Transmitter.UartSend` | applications/robot_wars/gateway_bridge/src/uart_handler.c:150-177 | uart_send is the Send step: a new numbered buffer at the tail of the fifo |
| `UartTransmitter.Transmitter.UartTx` | applications/robot_wars/gateway_bridge/src/uart_handler.c:246 | the driver takes a buffer only while it is free, and will shift out its first size bytes |
| `UartTransmitter.Transmitter.ThreadSend` | applications/robot_wars/gateway_bridge/src/uart_handler.c:243-246 | the thread hands the oldest buffer to the driver, sized by its first byte, and waits; the driver is never busy then |
| `UartTransmitter.Transmitter.ShiftOut` | applications/robot_wars/gateway_bridge/src/uart_handler.c:246 | the driver puts the next byte of the buffer in flight on the wire |
| `UartTransmitter.Transmitter.TxDone` | applications/robot_wars/gateway_bridge/src/uart_handler.c:94-105 | the callback frees the buffer in flight and gives the semaphore |
| `UartTransmitter.Transmitter.ThreadTakeSem` | applications/robot_wars/gateway_bridge/src/uart_handler.c:251 | taking the semaphore lets the thread fetch the next buffer |
| `Bridge.StructBytes` | applications/robot_wars/gateway/src/modules/mesh_uart_module.c:260-283 | where each byte of the movement and LED structs comes from when uart_send copies them |
| `Bridge.StructsSurviveMemory` | applications/robot_wars/gateway_bridge/src/model_handler.c:118-127 | a movement or LED struct copied as raw little-endian bytes reads back as the same value |
| `Bridge.ForwardCommand` | applications/robot_wars/gateway_bridge/src/model_handler.c:103-171 | the frame of each gateway command makes the bridge send the one mesh message the command stands for |
| `Bridge.ForwardExactly` | applications/robot_wars/gateway_bridge/src/model_handler.c:103-171 | for any message whatever, what the bridge sends over the mesh: exactly three kinds are forwarded, under their own opcode, to the address cut to 16 bits, carrying the value whose struct bytes came in |
| `Bridge.CommandsCanBeSent` | applications/robot_wars/gateway/src/modules/mesh_uart_module.c:254-285 | every list of commands is the history of a run of the link, so what is said of such runs is about every list |
| `Bridge.CommandsReachMesh` | applications/robot_wars/gateway/src/modules/mesh_uart_module.c:254-285 | over every interleaving of the link, what the bridge sends over the mesh is a prefix of the gateway commands, in order, and all of them once drained |
| `Bridge.EndToEndValue` | applications/robot_wars/gateway_bridge/src/model_handler.c:109-169 | the i-th mesh message goes to the robot the i-th command named, and its payload is the encoding of the value commanded and of no other |
| `Bridge.CommandReachesRobot` | subsys/bluetooth/mesh/vnd/movement_srv.c:23-58 | the server models of a robot, given the i-th message off the link as the bridge forwards it, end up with exactly the i-th command: that movement stored and acknowledged, negative angles included, or that LED value shown, or the stored movement handed out (light_rgb_srv.c:24-46, robot_srv.c:40-55) |
| `Bridge.OnAllStates` | applications/robot_wars/gateway/src/modules/mesh_uart_module.c:254-285 | the mesh thread makes exactly the Send step of its command: fifo and history grow by the frame, and thread, semaphore, wire and the buffer in flight with its position are as before |
| `Bridge.MeshTx` | applications/robot_wars/gateway_bridge/src/model_handler.c:103-177 | the piecewise copy into the struct and the hand-over to the model produce exactly the mesh message of the frame, ids and addresses narrowed to 16 bits |
| `MeshModels.PayloadBytes` | subsys/bluetooth/mesh/vnd/movement_cli.c:23-27 | where each byte of the movement and LED payloads comes from: big-endian fields in order (light_rgb_cli.c:23-28) |
| `MeshModels.EncodeMovementInjective` | subsys/bluetooth/mesh/vnd/movement_cli.c:23-27 | no two movements share a payload, so the decoder has no choice |
| `MeshModels.EncodeLedInjective` | subsys/bluetooth/mesh/vnd/light_rgb_cli.c:23-28 | no two LED commands share a payload |
| `MeshModels.MovementCliSet` | subsys/bluetooth/mesh/vnd/movement_cli.c:15-33 | appending the fields builds the 9-byte big-endian payload |
| `MeshModels.RgbCliSet` | subsys/bluetooth/mesh/vnd/light_rgb_cli.c:15-34 | appending the fields builds the 5-byte big-endian payload |
| `MeshModels.ExtractMovement` | subsys/bluetooth/mesh/vnd/movement_srv.c:14-21 | the movement pulled off the buffer is the one whose encoding was consumed |
| `MeshModels.ExtractRgb` | subsys/bluetooth/mesh/vnd/light_rgb_srv.c:14-22 | the LED command pulled off the buffer is the one whose encoding was consumed |
| `MeshModels.RobotServer.OnMessage` | subsys/bluetooth/mesh/vnd/movement_srv.c:23-69 | a SET is acknowledged if and only if it has the exact length, and only with the decoded movement stored; READY hands out what is stored; nothing else touches it (robot_srv.c:40-55, light_rgb_srv.c:24-46) |
| `Reports.ReceiveReport` | applications/robot_wars/gateway/src/modules/mesh_uart_module.c:307-354 | each report frame becomes its event: byte k of the identity is byte k of the payload, with the unassigned bits on top, the count is its first byte, the address is cut to 16 bits; a message is left without an event type exactly when its model and opcode are unknown |
| `Reports.IdentityBytes` | applications/robot_wars/gateway/src/modules/mesh_uart_module.c:323-325 | the six bytes copied into the identity are its low six bytes, in order |
| `Reports.ReportsCanBeSent` | applications/robot_wars/gateway_bridge/src/model_handler.c:46-63 | every list of reports is the history of a run of the link |
| `Reports.ReportsReachGateway` | applications/robot_wars/gateway_bridge/src/model_handler.c:46-63 | the i-th message the gateway rebuilds is the frame of the i-th report the bridge sent, all of them once drained |
| `RobotNames.HexValue` | applications/robot_wars/gateway/src/modules/robot_module.c:158-159 | the digits printed, read back as hexadecimal, are the number |
| `RobotNames.WriteName` | applications/robot_wars/gateway/src/modules/robot_module.c:153-159 | the two overlapping writes stay in the 13-byte field for every identity, and the string left there depends on the identity alone |
| `RobotNames.NameShape` | applications/robot_wars/gateway/src/modules/robot_module.c:158-159 | the name is four digits of bits 32..47 followed by the unpadded low half if and only if the top one of those digits is not zero |
| `RobotNames.NameIdentifies` | applications/robot_wars/gateway/src/modules/robot_module.c:158-159 | among identities with a non-zero top digit, names are equal if and only if bits 0..47 are |
| `RobotNames.NamesCollide` | applications/robot_wars/gateway/src/modules/robot_module.c:158-159 | when two identities get one name, for every pair: with bits 28..47 of either zero, exactly when bits 16..47 agree, the low half being lost; otherwise exactly when bits 0..31 and the four leading hexadecimal digits of bits 16..47 agree |
| `RobotNames.SmallIdentities` | applications/robot_wars/gateway/src/modules/robot_module.c:158-159 | every identity below 2^16 is named 0 |
| `RobotNames.LongIdentities` | applications/robot_wars/gateway/src/modules/robot_module.c:158-159 | two identities that differ in bits 32..47 share a longer name |
| `RobotHistory.BarrierHistory` | applications/robot_wars/gateway/src/modules/robot_module.c:279-403 | the registry is the map of registered addresses, each listed once; a robot is CONFIGURED if and only if the last of registration, acknowledgement and telemetry handled for it was an acknowledgement, else READY; across disconnects and dropped events |
| `RobotHistory.ClearExactly` | applications/robot_wars/gateway/src/modules/robot_module.c:360-381 | CLEAR_TO_MOVE is submitted at exactly the acknowledgements after which every registered address was last marked by one |
| `RobotHistory.FaultExactly` | applications/robot_wars/gateway/src/modules/robot_module.c:360-389 | the unchecked lookups fail if and only if an acknowledgement or telemetry from an unregistered address was handled while connected |
| `RobotHistory.RegistryGrows` | applications/robot_wars/gateway/src/modules/robot_module.c:153-181 | the list is append-only and nobody in it changes name or address |
| `RobotHistory.OneRobotTouched` | applications/robot_wars/gateway/src/modules/robot_module.c:360-402 | handling an acknowledgement makes the one robot at that address CONFIGURED with the red LED setting, handling telemetry makes it READY with the count reported and the green one, and every other field and every other robot stay |
| `RobotRecords.RecordsFollowHistory` | applications/robot_wars/gateway/src/modules/robot_module.c:153-402 | over every run each robot has the name of the identity it first announced, the revolution count of the last telemetry handled for it while connected, or 0, and the LED setting of the last registration, acknowledgement, telemetry or accepted delta that gave it one |
| `RobotRecords.DeltaSubmits` | applications/robot_wars/gateway/src/modules/robot_module.c:235-276 | over every run an accepted delta has MOVEMENT_CONFIGURE submitted for exactly the registered robots whose movement it names, once each, in list order, and then LED_CONFIGURE for exactly those whose LED it names; any other delta has nothing submitted |
| `RobotRecords.DeltaReaches` | applications/robot_wars/gateway/src/modules/robot_module.c:260-276 | an address is told by an accepted delta if and only if a registered robot there is named |
| `RobotRecords.AckSubmits` | applications/robot_wars/gateway/src/modules/robot_module.c:364-379 | an acknowledgement has the movement of the robot reported, its LED set and, exactly if all robots are CONFIGURED then, CLEAR_TO_MOVE submitted, in that order |
| `RobotRecords.TelemetrySubmits` | applications/robot_wars/gateway/src/modules/robot_module.c:387-400 | telemetry has the LED of the robot set and, exactly if all robots are READY then, the last count handled of each robot reported, in list order |
| `RobotRecords.JoinSubmits` | applications/robot_wars/gateway/src/modules/robot_module.c:281-297 | a new robot has its LED set, and is reported first while connected (343-358); a known one has nothing submitted |
| `RobotRecords.ConnectSubmits` | applications/robot_wars/gateway/src/modules/robot_module.c:300-310 | the cloud connection has the robots cleared and then each reported, movement and last count, in list order |
| `RobotRecords.NothingElseSubmits` | applications/robot_wars/gateway/src/modules/robot_module.c:405-427 | every other event changes nothing but the connection |
| `RobotDeltas.AcceptedExactly` | applications/robot_wars/gateway/src/modules/robot_module.c:318-331 | a delta is acted on if and only if its version is a strict left-to-right maximum above zero of those handled while connected; otherwise the gateway is left as it was |
| `RobotDeltas.VersionKept` | applications/robot_wars/gateway/src/modules/robot_module.c:325-329 | the version kept is the highest handled while connected, or zero |
| `RobotDeltas.MovementsFollowDeltas` | applications/robot_wars/gateway/src/modules/robot_module.c:153-170 | each robot has the order of the highest-version accepted delta naming it since it registered, or zeros; speed is always 100 |
| `RobotModule.RobotNode.ProcessMovement` | applications/robot_wars/gateway/src/modules/robot_module.c:260-276 | a delta naming the robot replaces its movement at speed 100 and announces it; others do nothing |
| `RobotModule.RobotNode.ProcessLed` | applications/robot_wars/gateway/src/modules/robot_module.c:245-258 | a delta naming the robot replaces its LED setting and announces it; others do nothing |
| `RobotModule.Module.GetRobotByAddr` | applications/robot_wars/gateway/src/modules/robot_module.c:172-181 | the list walk returns a listed robot at the address, or null if and only if there is none |
| `RobotModule.Module.AllRobotsAreInState` | applications/robot_wars/gateway/src/modules/robot_module.c:224-233 | the list walk decides whether every robot is in the state |
| `RobotModule.Module.AddRobot` | applications/robot_wars/gateway/src/modules/robot_module.c:153-170 | a new robot joins the end of the list, named by its identity, in its initial state |
| `RobotModule.Module.OnRobotIdEvent` | applications/robot_wars/gateway/src/modules/robot_module.c:281-297 | an unknown address is registered and announced, reported too while connected (robot_module.c:343-358); a known one changes nothing |
| `RobotModule.Module.OnMovementConfigured` | applications/robot_wars/gateway/src/modules/robot_module.c:360-381 | the in-place update of one record is the acknowledgement step, output order included |
| `RobotModule.Module.OnTelemetryReported` | applications/robot_wars/gateway/src/modules/robot_module.c:383-402 | the in-place update of one record is the telemetry step, output order included |
| `RobotModule.MoveEach` | applications/robot_wars/gateway/src/modules/robot_module.c:235-243 | walking the list with process_delta_movement updates every record as its own order says and concatenates the events |
| `RobotModule.LightEach` | applications/robot_wars/gateway/src/modules/robot_module.c:235-243 | walking the list with process_delta_led does the same for the LED settings |
| `RobotModule.Module.OnUpdateDelta` | applications/robot_wars/gateway/src/modules/robot_module.c:316-332 | the version guard and the two passes over the list are the delta step |
| `RobotModule.Module.ReportRobots` | applications/robot_wars/gateway/src/modules/robot_module.c:302-306 | the connection reports go out robot by robot in list order |
| `RobotModule.Module.HandleMessage` | applications/robot_wars/gateway/src/modules/robot_module.c:405-427 | one turn of the thread is one step of the module, for every event and state that does not dereference a missing robot |
| `Fleet.BarrierSafety` | applications/robot_wars/gateway/src/modules/robot_module.c:360-381 | with any number of robots and a network that loses, duplicates and reorders: when CLEAR_TO_MOVE is submitted, and ever after, each robot registered then holds a movement sent to its own address |
| `Fleet.ReadyMovesWhatWasSent` | subsys/bluetooth/mesh/vnd/robot_srv.c:40-55 | what such a robot hands to its motor on the broadcast was sent to it |
| `Fleet.FleetInv` | subsys/bluetooth/mesh/vnd/movement_srv.c:23-46 | in every reachable state an acknowledgement in flight means its sender holds a sent movement, and a CONFIGURED robot has acknowledged |
| `Fleet.SentWasOnRecord` | applications/robot_wars/gateway/src/modules/mesh_uart_module.c:254-264 | whatever was sent to an address was once the movement on record for the robot there, although the pointer is followed late |
| `Fleet.HeldForCertain` | subsys/bluetooth/mesh/vnd/robot_srv.c:40-45 | an acknowledged robot is bound to hold a given movement, whatever is delivered next, if and only if nothing else was ever sent to its address |
| `Fleet.ClearedMovementIsCertain` | applications/robot_wars/gateway/src/modules/robot_module.c:360-381 | when CLEAR_TO_MOVE is submitted, a robot registered then is bound to set off on the movement on record for it, whatever is delivered first, if and only if no other movement was ever sent to its address |
| `FleetRuns.StaleMovementIsCleared` | applications/robot_wars/gateway/src/modules/robot_module.c:260-276 | a run in which CLEAR_TO_MOVE is submitted for a robot whose stored movement is no longer the one on record |
| `Fleet.StaleMovementCanBeCleared` | applications/robot_wars/gateway/src/modules/robot_module.c:260-276 | in a fleet of any size whose other robots are CONFIGURED: after a newer delta a repeated acknowledgement of a robot clears, and the robot then holds the movement ordered if and only if it had stored that very movement before |
| `Fleet.GatewayIsModuleRun` | applications/robot_wars/gateway/src/modules/robot_module.c:405-427 | the gateway inside the system is a run of the robot module, so the history theorems hold in it |
| `Fleet.OnlyStrayTelemetryFaults` | applications/robot_wars/gateway/src/modules/robot_module.c:364-389 | in the system acknowledgements always find their robot; the gateway faults if and only if it handles telemetry from an address it never registered |
| `Fleet.FaultNeedsReady` | applications/robot_wars/gateway/src/modules/robot_module.c:383-389 | robots move, report and fault the gateway only after READY was broadcast, and that only after CLEAR_TO_MOVE was submitted |
| `FleetRuns.AnnouncementArrives` | applications/robot_wars/gateway/src/modules/robot_module.c:281-297 | any identity any robot announces can come to be handled |
| `FleetRuns.ReportArrives` | applications/robot_wars/gateway/src/modules/robot_module.c:383-402 | any move a robot has not reported yet can come to be reported, under the next number, and handled |
| `FleetRuns.StrayReportFaults` | applications/robot_wars/gateway/src/modules/robot_module.c:383-389 | a run in which an unregistered robot hears the broadcast, moves and reports, and its report makes the gateway look up a robot it does not have |
| `FleetLiveness.ClearsExactlyWhenSent` | applications/robot_wars/gateway/src/modules/robot_module.c:360-381 | over a network that may deliver again what has already arrived: from any moment of a run, connected and without fault, deliveries alone can bring about CLEAR_TO_MOVE if and only if a robot is registered and every registered robot has been sent a movement |
| `FleetLiveness.DeltaIsSent` | applications/robot_wars/gateway/src/modules/robot_module.c:260-276 | from any moment of a run: once an accepted delta is handled and what is queued then is sent, every registered robot it names has been sent the movement ordered, at speed 100 |
| `FleetLiveness.DeltaCanClear` | applications/robot_wars/gateway/src/modules/robot_module.c:260-276 | a newer delta that names every registered robot can bring about CLEAR_TO_MOVE |
| `OnceDelivery.ClearsExactlyWhenLive` | applications/robot_wars/gateway/src/modules/robot_module.c:360-381 | over a network that delivers each packet still in flight at most once: deliveries can bring about CLEAR_TO_MOVE if and only if every registered robot is CONFIGURED or has a movement or an acknowledgement in flight, and some robot has one |
| `OnceDelivery.LateReportPrevents` | applications/robot_wars/gateway/src/modules/robot_module.c:383-402 | when the broadcast can still come about, handling the report of an earlier move prevents it if and only if nothing for the robot that reported is in flight |
| `FleetRuns.LateReportPreventsClear` | applications/robot_wars/gateway/src/modules/robot_module.c:383-402 | a run in which a robot has acknowledged its next movement, the report of its first is still in flight, and the order of two deliveries decides: the report last, CLEAR_TO_MOVE is submitted; the report first, nothing in flight can bring it about any more |
| `FleetLiveness.OneAcknowledges` | subsys/bluetooth/mesh/vnd/movement_srv.c:23-46 | delivering a movement sent to a robot and then its acknowledgement leaves that robot CONFIGURED and no other worse off, and clears exactly if that completes the set |
| `Composition.CommandsForExactly` | applications/robot_wars/gateway/src/modules/mesh_uart_module.c:254-285 | an event makes the mesh thread send exactly one message if it is the broadcast or a movement whose robot is registered, and none of the barrier otherwise |
| `Composition.CommandCarriesPackets` | applications/robot_wars/gateway/src/modules/mesh_uart_module.c:254-285 | the mesh message of an event's command carries exactly the packets the barrier model sends for the event |
| `Composition.BarrierPacketsCross` | applications/robot_wars/gateway/src/modules/mesh_uart_module.c:254-285 | put on the link among any other traffic, the command reaches the mesh in its place as that message, and does so once the link is drained |
| `Composition.HearOverMesh` | subsys/bluetooth/mesh/vnd/movement_srv.c:23-58 | the server model does with the message what the barrier model does with the packet |
| `Composition.HearOverLink` | applications/robot_wars/gateway/src/modules/mesh_uart_module.c:307-354 | the event made of the i-th message is the one the barrier model handles for that report |
| `Motor.TokenInvariant` | applications/robot_wars/robot/src/modules/motor_module.c:117-204 | in every reachable state pending stop work plus queued MOVEMENT_DONE events is 0 in STANDBY and 1 otherwise |
| `Motor.Conservation` | applications/robot_wars/robot/src/modules/motor_module.c:160-204 | over every run accepted moves equal reports plus the one running, the k-th report carries k mod 256, and each move got its own turn and then a drive of its own time, none swallowed by a pending work item |
| `Motor.MovesAccountedFor` | applications/robot_wars/robot/src/modules/motor_module.c:160-204 | over every run the moves that arrived are those accepted, queued and dropped outside STANDBY; the reports fall short of them by exactly those queued, dropped or still running |
| `Motor.TurnDelayBounds` | applications/robot_wars/robot/src/modules/motor_module.c:128-150 | a turn lasts between 1000 and 540000 microseconds if and only if the angle is not -2^31; exact durations otherwise |
| `Motor.StoppedAtRest` | applications/robot_wars/robot/src/modules/motor_module.c:117-124 | without hand-driving button presses both motors are stopped whenever no stop is pending, so in STANDBY |
| `Motor.MotorsFollowMove` | applications/robot_wars/robot/src/modules/motor_module.c:128-158 | without button presses the wheels do what the current phase of the stored movement says; left only for angles -179..-1 (and the overflow) |
| `Motor.AcceptedAsCame` | applications/robot_wars/robot/src/modules/motor_module.c:161-173 | over every run the moves carried out are exactly those taken off the queue in STANDBY, with the values they came with |
| `Motor.WheelsFollowSteps` | applications/robot_wars/robot/src/modules/motor_module.c:117-227 | over every run, buttons or not, the wheels do what last touched them: the stop, an accepted turn, the drive of the stored speed, or a button |
| `Motor.ReportsGoOut` | applications/robot_wars/robot/src/modules/motor_module.c:188-204 | over every run the reports sent out and still queued are those counted, in order, and the stop pending is the last one scheduled |
| `Motor.ClampSign` | applications/robot_wars/robot/src/modules/motor_module.c:135-137 | clamping keeps a negative sign exactly for angles -179..-1 (and the overflow): a half turn and beyond always go right |
| `Motor.NextKeepsGood` | applications/robot_wars/robot/src/modules/motor_module.c:160-227 | every step keeps the token, the balance of moves and reports, and the plan of delays together |
| `Motor.OnStateKeepsGood` | applications/robot_wars/robot/src/modules/motor_module.c:160-204 | so does the handler of any mode on any event taken off the queue |
| `Motor.MotorModule.ScheduleStop` | applications/robot_wars/robot/src/modules/motor_module.c:131-156 | whenever the module schedules the stop, the item is free, so the delay asked for is the delay set |
| `Motor.MotorModule.TurnDegrees` | applications/robot_wars/robot/src/modules/motor_module.c:128-150 | drive directions and schedule are those of the turn step; the stop is set to the duration of the turn |
| `Motor.MotorModule.StopMotorWork` | applications/robot_wars/robot/src/modules/motor_module.c:117-124 | the work item stops both motors and queues MOVEMENT_DONE, keeping the invariants |
| `Motor.MotorModule.OnModeStandby` | applications/robot_wars/robot/src/modules/motor_module.c:161-173 | only a MOVE is accepted in STANDBY; the invariants hold again after it |
| `Motor.MotorModule.OnModeTurning` | applications/robot_wars/robot/src/modules/motor_module.c:175-186 | MOVEMENT_DONE starts the drive of the stored time and speed, finding the work item free |
| `Motor.MotorModule.OnModeMoving` | applications/robot_wars/robot/src/modules/motor_module.c:188-204 | MOVEMENT_DONE ends the move and emits the counted report, restoring the balance |
| `Motor.MotorModule.OnEveryMode` | applications/robot_wars/robot/src/modules/motor_module.c:206-227 | button presses drive or stop the motors in any state |
| `Motor.MotorModule.ThreadStep` | applications/robot_wars/robot/src/modules/motor_module.c:265-292 | one turn of the thread is one Process step and keeps token, conservation and plan |
| `Motor.MotorModule.AppEvent` | applications/robot_wars/robot/src/modules/motor_module.c:81-114 | an event from outside is one Arrive step and keeps them too |
| `Leds.StateFollowsEvents` | applications/robot_wars/robot/src/modules/led_module.c:100-156 | over every run, whatever the blink time, the whole state is read off the events: blink time and colour of the last command, the work items due, and as output the colour commanded when the last on-phase came, or dark after an off-phase |
| `Leds.LightsUp` | applications/robot_wars/robot/src/modules/led_module.c:100-108 | at every on-phase of a possible run the LED shows the colour commanded, and until the next firing |
| `Leds.NeverStopsBlinking` | applications/robot_wars/robot/src/modules/led_module.c:100-116 | whatever happens after initialisation, a non-zero blink time keeps a work item pending, and a quiet machine shows its colour |
| `Leds.Settles` | applications/robot_wars/robot/src/modules/led_module.c:100-131 | after an RGB command with blink time 0 and nothing further, at most three firings, at most one off-phase, no getting stuck, and the commanded colour at the end |
| `Leds.SettlesFrom` | applications/robot_wars/robot/src/modules/led_module.c:100-116 | the measure on the two pending work items falls with every firing |
| `Leds.SettlingCanTakeThree` | applications/robot_wars/robot/src/modules/led_module.c:100-131 | the bound of three is reached when an off-phase was pending |
| `Leds.LedModule.BlinkOn` | applications/robot_wars/robot/src/modules/led_module.c:100-108 | the on-phase shows the colour and schedules an off-phase only for a non-zero blink time; the module keeps blinking or shows its colour |
| `Leds.LedModule.BlinkOff` | applications/robot_wars/robot/src/modules/led_module.c:110-116 | the off-phase goes dark and schedules an on-phase always; the same invariant |
| `Leds.LedModule.OnCommand` | applications/robot_wars/robot/src/modules/led_module.c:119-156 | an RGB command reschedules the on-phase for now; a button leaves a pending on-phase in place; the same invariant |
| `Cloud.BoundedAttempts` | applications/robot_wars/gateway/src/modules/cloud_module.c:304-334 | over every run the counter stays in 0..11 and the table read in range; between two resets at most eleven attempts with strictly increasing delays |
| `Cloud.CountersFollowSteps` | applications/robot_wars/gateway/src/modules/cloud_module.c:304-350 | over every run the counter is the number of attempts since the last processed cloud connection or LTE loss whose disconnect succeeded, and the check pending is that of the last attempt until it fires or is reset |
| `Cloud.ResetStartsAgain` | applications/robot_wars/gateway/src/modules/cloud_module.c:336-350 | after each reset the counter is 0 and nothing is pending, and the next attempt waits 32 s |
| `Cloud.BackoffIs` | applications/robot_wars/gateway/src/modules/cloud_module.c:64-68 | the delays double from 32 s, but for one step from 512 s to 2048 s |
| `Cloud.QueueIsFifo` | applications/robot_wars/gateway/src/modules/cloud_module.c:144-179 | over every run the messages processed are those that found room among 20, in order |
| `Cloud.StatesFollowMessages` | applications/robot_wars/gateway/src/modules/cloud_module.c:393-447 | over every run LTE and cloud states are read off the messages processed |
| `Cloud.NeverStuck` | applications/robot_wars/gateway/src/modules/cloud_module.c:378-447 | over every run, with LTE up, cloud down and attempts left: the machine waits for nothing if and only if a timeout met a full queue, no attempt was made since and no older timeout is queued; cloud-connected implies LTE-connected |
| `Cloud.LostExactly` | applications/robot_wars/gateway/src/modules/cloud_module.c:168-176 | the lost-timeout flag is set exactly while a timeout that met a full queue has not been made up for by an attempt |
| `Cloud.LostTimeoutStrands` | applications/robot_wars/gateway/src/modules/cloud_module.c:168-176 | a run in which a timeout lost to a full queue leaves the machine waiting for nothing after one attempt |
| `Cloud.ExhaustedLeaves` | applications/robot_wars/gateway/src/modules/cloud_module.c:311-345 | out of attempts, the machine moves on if and only if it processes a cloud connection or an LTE loss |
| `Cloud.AttemptsReached` | applications/robot_wars/gateway/src/modules/cloud_module.c:304-334 | every number of attempts from one to eleven is reached, with its delay of the table pending |
| `Cloud.ExhaustedReached` | applications/robot_wars/gateway/src/modules/cloud_module.c:311-314 | a run in which eleven unanswered attempts leave the machine with none |
| `Cloud.TrapStep` | applications/robot_wars/gateway/src/modules/cloud_module.c:304-350 | in one step a machine out of attempts is freed exactly by processing, with LTE up, a cloud connection or an LTE loss whose disconnect succeeds; otherwise it makes no attempt |
| `Cloud.TrappedExactly` | applications/robot_wars/gateway/src/modules/cloud_module.c:304-350 | over every continuation, whatever is queued and however often LTE goes and comes back: a machine out of attempts stays so throughout if and only if nothing frees it, and then makes no attempt |
| `Cloud.FailedDisconnectTraps` | applications/robot_wars/gateway/src/modules/cloud_module.c:336-350 | both ways happen: with an empty queue and nothing in between, an exhausted machine that loses LTE and gets it back is in the very same state if and only if the disconnect failed; otherwise it starts a first attempt |
| `Cloud.ConnectionStep` | applications/robot_wars/gateway/src/modules/cloud_module.c:408-447 | a connected machine leaves the connected sub-state in a step if and only if that step processes an LTE loss |
| `Cloud.OnlyLteLossEndsConnection` | applications/robot_wars/gateway/src/modules/cloud_module.c:450-508 | over every continuation of a run: the machine stays connected throughout if and only if it processes no LTE loss, and then makes no attempt |
| `Cloud.NoLossStaysConnected` | applications/robot_wars/gateway/src/modules/cloud_module.c:450-508 | with no LTE loss queued or arriving it stays connected whatever else happens |
| `Cloud.CloudLossUnnoticed` | applications/robot_wars/gateway/src/modules/cloud_module.c:196-200 | a run that processes a cloud disconnect and remains in the connected sub-state with nothing pending |
| `Cloud.Next` | applications/robot_wars/gateway/src/modules/cloud_module.c:304-447 | every step keeps the retry counter in range and equal to the number of attempts since the last reset |
| `Cloud.CloudModule.Enqueue` | applications/robot_wars/gateway/src/modules/cloud_module.c:144-179 | a full queue drops the event, and only a timeout dropped there changes what the module waits for |
| `Cloud.CloudModule.ConnectToCloud` | applications/robot_wars/gateway/src/modules/cloud_module.c:304-334 | the table is read, then the guard; afterwards a check is pending unless the attempts ran out, whatever was pending before |
| `Cloud.CloudModule.DisconnectFromCloud` | applications/robot_wars/gateway/src/modules/cloud_module.c:336-350 | a failed disconnect keeps the counter and the timer, a successful one resets both whatever they were; either way the invariants hold |
| `Cloud.CloudModule.ConnectCheckWork` | applications/robot_wars/gateway/src/modules/cloud_module.c:378-390 | the timer queues a timeout only while LTE is up and cloud down |
| `Cloud.CloudModule.OnLteDisconnected` | applications/robot_wars/gateway/src/modules/cloud_module.c:393-405 | LTE coming up starts an attempt; nothing else does |
| `Cloud.CloudModule.OnCloudDisconnected` | applications/robot_wars/gateway/src/modules/cloud_module.c:426-447 | a connection resets counter and timer, a timeout starts an attempt; the timeout taken off the queue is made up for |
| `Cloud.CloudModule.OnLteConnected` | applications/robot_wars/gateway/src/modules/cloud_module.c:408-423 | an LTE loss resets both states and disconnects |
| `Cloud.CloudModule.ThreadStep` | applications/robot_wars/gateway/src/modules/cloud_module.c:525-551 | the sub-state handler and then the LTE handler make one Process step, which keeps the bounds and never leaves the module waiting for nothing but after a lost timeout |

## Left out

- Zephyr kernel, Bluetooth mesh stack, UART and PWM drivers: only their contracts listed above.
- JSON text of deltas and reports (`codec.c`): deltas are decoded values, reports are the values they carry.
- The quality-of-service list, AWS IoT calls and socket polling: the cloud machine sees only their events and whether a disconnect failed.
- Failure paths after a logged error (allocation, `uart_tx`, an aborted transfer).
- The modem, UI and provisioning modules, and the robot's mesh module states, which do nothing.
- The value of an event whose type was never assigned: the robot module is taken to ignore it.
- Torn reads of a robot record by the mesh thread, and of the colour globals by the LED work items.
- The identity and telemetry mesh models beyond the bytes they pass on.
- LED commands in the barrier model: they play no part in it and cross the link by `Bridge.EndToEndValue`.
- Fleet.BarrierSafety: promises some movement sent to the robot, not the newest, because the code does not keep that (see above).
