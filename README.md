# AMR navigation and MD motor-driver stack, modelled in Dafny

This project models the control core of a small ROS 2 mobile robot:

- **advanced_navigation** (Python): an occupancy grid of 66 x 64 cells of 10 cm, with one shelf rasterised into it. It runs A* over 8-connected cells with Euclidean costs and smooths the path by line-of-sight. It tracks the path with a pure-pursuit controller whose lookahead grows with speed, and keeps a waypoint progress index.
- **com.cpp** (C++): the MD motor-driver serial protocol.
  - `PutMdData` builds packets: MID, 184, ID, PID, a data-size byte, data, and a two's-complement checksum.
  - `AnalyzeReceivedData` runs a byte-at-a-time state machine (steps 0-5). It checks the header, ID and checksum, counts errors and resets after 10.
  - `MdReceiveProc` decodes RPM and position from a main-data packet.
  - `Short2Byte`, `Byte2Short` and `Byte2LInt` convert between bytes and integers.
- **md_controller.cpp** (C++): the driver node. It waits 201 timer ticks, then runs the five-step motor init sequence, which shuts down after more than 10 unanswered requests. It forwards changed RPM pairs as velocity or torque-off commands and requests main data on every tick.
- **line_tracing.cpp** (C++): five IR sensors give a weighted error. A PID correction is applied around a base speed that ramps up by 2 per message. Wheel RPMs are clamped to +-100 and published as `[left, -right]`.
- **md_teleop.py** (Python): W/S/A/D/space keys step the two RPMs by 10. The RPMs saturate at +-1000 and are published as `[left, -right]`.

Values become Dafny values:
- Doubles are `real`.
- Python `int()` and C++ `static_cast<int32_t>` are truncation toward zero (`RealMath.Trunc`).
- C `BYTE` arithmetic is modulo 256, `short` wraps modulo 2^16, and `int` is a 32-bit two's-complement value.
- `sqrt`, `atan2`, `sin` and `cos` are uninterpreted functions held in a `Trig` record.

Objects whose fields the source updates become classes with those fields:
- `MdCom.Communication` (the global `Com` structure, with the send buffer as an `array`);
- `MdController.MdControllerNode`;
- `LineTracing.LineTracingNode`;
- `MdTeleop.TeleopKey`;
- `Navigation.AdvancedNavigation` (the occupancy grid as an `array2`).

Each class's methods are proved against pure specification functions: `Analyze`, `TimerTick`, `SensorStep`, `KeyStep` and `Progressed`. The properties are proved about those functions.

Published messages and bytes written to the serial port are recorded in sequence fields (`published`, `written`, `cmdVel`). The com.hpp header is not part of this model. Its constants (PIDs, `MAX_PACKET_SIZE`, `MAX_DATA_SIZE`) are the fields of `MdProtocol.Protocol`, with a validity predicate: the send PIDs are distinct, and every packet fits the send buffer. The receive buffer `byRcvBuf` is modelled with 256 entries, as many as the byte-wide packet counter can address; its declared size is in com.hpp, which is not part of this model.

## Model

| member | source | states |
|---|---|---|
| RealMath.Trunc | unity_amr_nav/unity_amr_nav/advanced_navigation.py:63-67 | Python `int()` on a float rounds toward zero: the result is within 1 of x, on x's side of 0 |
| RealMath.TruncWithin | line_tracing/src/line_tracing.cpp:129 | a value clamped to [lo, hi] truncates into [lo, hi] (the published RPM stays in range) |
| MdBytes.ToShort | MD_controller/md_controller/src/md_controller.cpp:68-69 | passing an int RPM to a `short` parameter keeps it modulo 2^16 |
| MdBytes.Byte2Short | MD_controller/md_controller/src/com.cpp:23-26 | joining two bytes gives a value in [0, 2^16): no sign extension |
| MdBytes.LIntBytes | MD_controller/md_controller/src/com.cpp:29-32 | the four little-endian bytes of a 32-bit value |
| MdBytes.Short2Byte | MD_controller/md_controller/src/com.cpp:12-20 | the low byte plus 256 times the high byte is the short modulo 2^16; the round trips are ShortRoundTrip, IntRoundTrip and BytesRoundTrip |
| MdBytes.Byte2LInt | MD_controller/md_controller/src/com.cpp:29-32 | the result agrees with b1 + b2*2^8 + b3*2^16 + b4*2^24 modulo 2^32; Byte2LIntIsLittleEndian and LIntRoundTrip state the rest |
| MdBytes.ShortRoundTrip | MD_controller/md_controller/src/com.cpp:12-26 | Short2Byte then Byte2Short gives the short modulo 2^16, and the short itself when non-negative |
| MdBytes.IntRoundTrip | MD_controller/md_controller/src/com.cpp:12-26 | an int RPM sent through Short2Byte comes back from Byte2Short as the RPM modulo 2^16 |
| MdBytes.BytesRoundTrip | MD_controller/md_controller/src/com.cpp:12-26 | Byte2Short then Short2Byte gives back the same two bytes |
| MdBytes.Byte2LIntIsLittleEndian | MD_controller/md_controller/src/com.cpp:29-32 | Byte2LInt is b1 + b2*2^8 + b3*2^16 + b4*2^24 modulo 2^32, exactly so when b4 < 0x80 |
| MdBytes.LIntRoundTrip | MD_controller/md_controller/src/com.cpp:29-32 | every 32-bit value survives being split into bytes and reassembled by Byte2LInt |
| MdProtocol.SumAppend | MD_controller/md_controller/src/com.cpp:113 | the byte sum of a concatenation is the sum of the byte sums |
| MdProtocol.Header | MD_controller/md_controller/src/com.cpp:98-101 | the header has four bytes; PacketLayout and StoreHeader state that they are MID, 184, ID and PID, each truncated to a byte |
| MdProtocol.Zeros | MD_controller/md_controller/src/com.cpp:96 | the cleared send buffer holds n zero bytes |
| MdProtocol.Payload | MD_controller/md_controller/src/com.cpp:103-211 | the data-size byte and data PutMdData writes after the header for each PID; PacketLayout and PntVelCmdLayout state their layout |
| MdProtocol.Checksum | MD_controller/md_controller/src/com.cpp:113-114 | `~sum + 1` on a byte; PacketChecksum states that it brings the packet sum to 0 modulo 256 |
| MdProtocol.Packet | MD_controller/md_controller/src/com.cpp:90-214 | the bytes written for a PID (none for an unknown PID); PacketLayout, PacketChecksum, PntVelCmdLayout and SentPacketWellFormed state its shape |
| MdProtocol.SendBuffer | MD_controller/md_controller/src/com.cpp:96-114 | the send buffer after PutMdData: the packet (the header alone for an unknown PID) padded with zeros; PutMdData ensures the array holds it |
| MdProtocol.PacketLayout | MD_controller/md_controller/src/com.cpp:103-211 | every known-PID packet starts with the header, its data-size byte equals length - 6, and its length is the PID's packet length |
| MdProtocol.PacketChecksum | MD_controller/md_controller/src/com.cpp:113-114 | the checksum byte makes the sum of all packet bytes 0 modulo 256 |
| MdProtocol.PntVelCmdLayout | MD_controller/md_controller/src/com.cpp:151-170 | PNT_VEL_CMD carries data size 7, enable flag 1, nArray[0..1], enable flag 1, nArray[2..3], a 0 byte and the checksum |
| MdProtocol.ClearPrefix | MD_controller/md_controller/src/com.cpp:371 | the reset sets the first MAX_PACKET_SIZE receive-buffer bytes to 0 and keeps every other byte |
| MdProtocol.Consume | MD_controller/md_controller/src/com.cpp:254-345 | the switch on the step for one byte; StepKeepsInvariant, BadHeaderByteRestarts, BadIdByteRestarts, ChecksumByteDecides and FrameStore state what each step does |
| MdProtocol.ReceiveProc | MD_controller/md_controller/src/com.cpp:217-238 | decoding of a delivered packet; DeliveryDecodes states which bytes become rpm and position |
| MdProtocol.ErrorReset | MD_controller/md_controller/src/com.cpp:361-372 | the reset after ten errors; ErrorLimitEndsScan states what it clears and that the scan ends |
| MdProtocol.Step | MD_controller/md_controller/src/com.cpp:254-374 | one loop iteration: the switch, delivery on an accepted packet, the error check; StepKeepsInvariant and FrameByte state its effect |
| MdProtocol.Run | MD_controller/md_controller/src/com.cpp:254-374 | the receive loop applies Step byte by byte and keeps the 256-entry receive buffer; RunKeepsInvariant, FrameRun and ErrorLimitEndsScan state what a whole input does |
| MdProtocol.Analyze | MD_controller/md_controller/src/com.cpp:240-376 | AnalyzeReceivedData: FullBufferRefused states the entry check, WellFormedFrameAccepted and SendThenReceive the delivery of a frame, HeaderFloodOverruns the overrun |
| MdParserProps.StepKeepsInvariant | MD_controller/md_controller/src/com.cpp:254-374 | one byte keeps the step in 0..5 and the error count below 10 |
| MdParserProps.RunKeepsInvariant | MD_controller/md_controller/src/com.cpp:254-374 | a whole input keeps the step in 0..5 and the error count below 10 |
| MdParserProps.FullBufferRefused | MD_controller/md_controller/src/com.cpp:248-252 | with the packet counter at MAX_PACKET_SIZE the call returns FAIL, resets the step and consumes nothing |
| MdParserProps.BadHeaderByteRestarts | MD_controller/md_controller/src/com.cpp:256-275 | in step 0 only 183/184 are accepted; any other byte restarts the packet and counts an error, and the tenth error halts the scan |
| MdParserProps.BadIdByteRestarts | MD_controller/md_controller/src/com.cpp:277-292 | in step 1 only IDs 1 and 2 are accepted; any other byte restarts the packet and counts an error |
| MdParserProps.ChecksumByteDecides | MD_controller/md_controller/src/com.cpp:323-338 | the checksum byte accepts the packet exactly when the running sum becomes 0; the step returns to 0 either way, and a rejected packet keeps its residue in the sum |
| MdParserProps.DeliveryDecodes | MD_controller/md_controller/src/com.cpp:217-238 | a PID_MAIN_DATA packet sets rpm from bytes 5-6 and position from bytes 15-18 (little-endian); other PIDs change nothing |
| MdParserProps.ErrorLimitEndsScan | MD_controller/md_controller/src/com.cpp:361-372 | the tenth error clears the checksum, counters and buffer prefix, and the rest of the input is skipped |
| MdParserProps.FrameStore | MD_controller/md_controller/src/com.cpp:294-321 | storing frame byte i extends the buffer, the running sum and the packet counter to i + 1 bytes |
| MdParserProps.FrameHeadByte | MD_controller/md_controller/src/com.cpp:256-306 | each of the first five frame bytes moves the parser from the state after i bytes to the state after i + 1 |
| MdParserProps.FrameSyncByte | MD_controller/md_controller/src/com.cpp:256-275 | the two header bytes move the parser to step 1 |
| MdParserProps.FrameFieldByte | MD_controller/md_controller/src/com.cpp:277-306 | the ID, PID and data-size bytes advance steps 1 to 4 |
| MdParserProps.FrameDataByte | MD_controller/md_controller/src/com.cpp:308-321 | data bytes keep step 4 until the declared count is in, then step 5 |
| MdParserProps.FrameByte | MD_controller/md_controller/src/com.cpp:254-338 | every frame byte but the last moves the parser from the state after i bytes to the state after i + 1 |
| MdParserProps.FrameLastByte | MD_controller/md_controller/src/com.cpp:323-359 | the last byte of a frame ends in the frame's end state and never halts |
| MdParserProps.FrameRunFrom | MD_controller/md_controller/src/com.cpp:254-374 | scanning a frame from byte i reaches the frame's end state |
| MdParserProps.FrameRun | MD_controller/md_controller/src/com.cpp:254-374 | a frame as the whole input, from step 0, ends in the frame's end state |
| MdParserProps.WellFormedFrameAccepted | MD_controller/md_controller/src/com.cpp:240-376 | from a clean state a well-formed frame is stored in the buffer and delivered, rpm and position are decoded, and the parser is clean again |
| MdParserProps.CorruptFrameRejected | MD_controller/md_controller/src/com.cpp:323-338 | a frame whose bytes do not sum to 0 is not delivered: rpm, position and the delivery flag are unchanged |
| MdParserProps.SentPacketWellFormed | MD_controller/md_controller/src/com.cpp:90-214 | every packet PutMdData builds with MID 183/184 and ID 1/2 is a well-formed frame |
| MdParserProps.SendThenReceive | MD_controller/md_controller/src/com.cpp:90-376 | round trip: from a clean state the receiver accepts exactly the bytes the sender wrote |
| MdParserProps.CorruptSum | MD_controller/md_controller/src/com.cpp:327 | changing a well-formed frame's checksum byte keeps the frame's shape but breaks its zero sum |
| MdParserProps.CorruptFrameBlocksNext | MD_controller/md_controller/src/com.cpp:323-338 | as written: after a frame with a corrupted checksum byte, the running sum stays non-zero and the next well-formed frame is not delivered |
| MdParserProps.ResyncRecoversAfterCorruptFrame | MD_controller/md_controller/src/com.cpp:323-338 | corrected: with the sum and counter restarted after each checksum byte, the parser is clean after a corrupted frame and the next well-formed frame is delivered |
| MdParserProps.HeaderFlood | MD_controller/md_controller/src/com.cpp:256-263 | a read made only of header bytes 184, of the given length |
| MdParserProps.FloodRun | MD_controller/md_controller/src/com.cpp:256-275 | in step 0 with the call-local count past 1, each header byte is stored at the packet counter, the counter advances, and the step stays 0 |
| MdParserProps.HeaderFloodOverruns | MD_controller/md_controller/src/com.cpp:248-275 | as written, for one read of MAX_PACKET_SIZE + 4 header bytes (possible only when MAX_DATA_SIZE allows a read that long): from a clean state the call returns SUCCESS with byte MAX_PACKET_SIZE of the receive buffer written, and every later call returns FAIL |
| MdParserProps.Reads | MD_controller/md_controller/src/com.cpp:378-406 | the receive state after n successive reads, each passed whole to AnalyzeReceivedData; the buffer keeps its 256 entries |
| MdParserProps.OneRejectedRead | MD_controller/md_controller/src/com.cpp:240-338 | one read of a 7-byte frame whose checksum byte is one too large, below MAX_PACKET_SIZE: SUCCESS, the frame stored after the previous bytes, the packet counter up by 7 and the running sum up by 1, nothing delivered |
| MdParserProps.RejectedReadsClimb | MD_controller/md_controller/src/com.cpp:323-338 | as written: after n such reads from a clean state the packet counter is 7n, the running sum is n, the buffer holds the frame n times in a row, and nothing was delivered |
| MdParserProps.RejectedReadsOverrun | MD_controller/md_controller/src/com.cpp:248-338 | as written, with 7-byte reads within MAX_DATA_SIZE: when MAX_PACKET_SIZE is not a multiple of 7, MAX_PACKET_SIZE / 7 + 1 reads all return SUCCESS, the last one writes byte MAX_PACKET_SIZE of the receive buffer, and every later call returns FAIL |
| MdParserProps.OffByOneFrameExists | MD_controller/md_controller/src/com.cpp:256-338 | [184, 184, 1, 4, 1, 0, 139] is such a frame: a well-shaped 7-byte frame whose bytes sum to 1 modulo 256 |
| MdParserProps.StepStoresAtCounter | MD_controller/md_controller/src/com.cpp:254-374 | with the packet counter below MAX_PACKET_SIZE, one byte is stored at the counter at most and the counter grows by one at most, so the buffer from MAX_PACKET_SIZE on is untouched |
| MdParserProps.GuardedStepStaysInBuffer | MD_controller/md_controller/src/com.cpp:248-263 | corrected: a byte that would land at or past MAX_PACKET_SIZE restarts the packet first, so one byte writes only below MAX_PACKET_SIZE |
| MdParserProps.RunGuardedStaysInBuffer | MD_controller/md_controller/src/com.cpp:254-374 | corrected: a whole input leaves the counter at most MAX_PACKET_SIZE and the buffer from MAX_PACKET_SIZE on untouched |
| MdParserProps.GuardedParserStaysInBuffer | MD_controller/md_controller/src/com.cpp:240-376 | corrected: any read writes only below MAX_PACKET_SIZE, and a refused call is followed by one that is served |
| MdCom.Communication.constructor | MD_controller/md_controller/src/com.cpp:240-376 | a zero-initialised `Com`: step 0, empty counters, nothing written |
| MdCom.Communication.ClearSendBuffer | MD_controller/md_controller/src/com.cpp:96 | the send buffer becomes all zeros |
| MdCom.Communication.StoreHeader | MD_controller/md_controller/src/com.cpp:98-101 | the first four buffer bytes hold the header; the rest stay zero |
| MdCom.Communication.StoreData | MD_controller/md_controller/src/com.cpp:103-211 | the switch writes the PID's data-size byte and data after the header and returns the PID's packet length (0 for an unknown PID) |
| MdCom.Communication.SendSum | MD_controller/md_controller/src/com.cpp:113 | the checksum loop computes the byte sum of the first n buffer bytes |
| MdCom.Communication.CloseFrame | MD_controller/md_controller/src/com.cpp:114 | the byte after the body is the two's complement of the body's sum |
| MdCom.Communication.PutMdData | MD_controller/md_controller/src/com.cpp:90-214 | the send buffer becomes the packet padded with zeros, exactly the packet's bytes are written to the port, and the call returns SUCCESS |
| MdCom.Communication.MdReceiveProc | MD_controller/md_controller/src/com.cpp:217-238 | the decoded fields are those of ReceiveProc, and the call returns SUCCESS |
| MdCom.Communication.Store | MD_controller/md_controller/src/com.cpp:294-321 | one stored byte adds to the running sum, goes into the buffer and advances the counter |
| MdCom.Communication.ConsumeByte | MD_controller/md_controller/src/com.cpp:254-345 | the switch on the step agrees with Consume for the byte |
| MdCom.Communication.ResetAfterErrors | MD_controller/md_controller/src/com.cpp:361-372 | the error reset agrees with ErrorReset |
| MdCom.Communication.StepByte | MD_controller/md_controller/src/com.cpp:254-374 | one loop iteration agrees with Step |
| MdCom.Communication.AnalyzeReceivedData | MD_controller/md_controller/src/com.cpp:240-376 | the new receive state and the status are those of Analyze |
| MdCom.Communication.ReceiveDataFromController | MD_controller/md_controller/src/com.cpp:378-406 | the init check succeeds exactly when byte 2 is the motor's ID; otherwise a non-empty read is analysed |
| MdController.WireAppend | MD_controller/md_controller/src/md_controller.cpp:62-93 | the bytes of two command runs are the concatenation of each run's bytes |
| MdController.InitSequence | MD_controller/md_controller/src/md_controller.cpp:95-134 | one step of the motor init sequence; UnansweredInitCounts, ShutdownWithoutAck and InitSequenceOrder state its effect |
| MdController.TimerStep | MD_controller/md_controller/src/md_controller.cpp:65-84 | the initialised branch of the timer; InitialisedTick and RpmCmdCarriesRpms state the commands it sends |
| MdController.TimerTick | MD_controller/md_controller/src/md_controller.cpp:62-93 | one timer tick; TickKeepsInvariant, StartDelaySendsNothing and UnansweredInitCounts state its effect |
| MdController.Ticks | MD_controller/md_controller/src/md_controller.cpp:62-93 | successive timer ticks; TicksSplit and ShutdownWithoutAck state their effect |
| MdController.RpmCommand | MD_controller/md_controller/src/md_controller.cpp:53-60 | the pair is stored, and SendCmdRpm is raised exactly when it was already raised or the pair differs; nothing else changes |
| MdController.TickKeepsInvariant | MD_controller/md_controller/src/md_controller.cpp:62-134 | each timer tick keeps the init step in 1..5 and the start delay at most 201 |
| MdController.StartDelaySendsNothing | MD_controller/md_controller/src/md_controller.cpp:86-91 | the first 201 ticks send nothing and only count; InitMotor is still set exactly when no read has acknowledged |
| MdController.UnansweredInitCounts | MD_controller/md_controller/src/md_controller.cpp:99-113 | while no read acknowledges, each init tick sends one main-data request and adds one to InitError, and shutdown happens exactly when InitError passes 10 |
| MdController.TicksSplit | MD_controller/md_controller/src/md_controller.cpp:62-93 | ticks over a + b are the ticks over a followed by the ticks over b |
| MdController.ShutdownWithoutAck | MD_controller/md_controller/src/md_controller.cpp:86-113 | from power-up with no acknowledgement, the node shuts down exactly from the 212th tick on |
| MdController.InitSequenceOrder | MD_controller/md_controller/src/md_controller.cpp:95-134 | after an acknowledgement, five ticks send the main-data request, a zero velocity command and a position reset, in order, and the node is initialised |
| MdController.InitialisedTick | MD_controller/md_controller/src/md_controller.cpp:65-84 | once initialised, every tick ends with the main-data request; a pending command goes first and is then cleared: it is RpmCmd of the stored RPM pair, sent as torque-off exactly when both RPMs are 0 and as PNT_VEL_CMD exactly otherwise, with data right low, right high, left low, left high |
| MdController.RpmCmdCarriesRpms | MD_controller/md_controller/src/md_controller.cpp:68-75 | the velocity packet carries the right, then the left RPM, each decoding to the RPM modulo 2^16 |
| MdController.MdControllerNode.constructor | MD_controller/md_controller/src/md_controller.cpp:32-42 | the node starts in the initial state: InitMotor on, step 1, delay 0, nothing pending |
| MdController.MdControllerNode.CmdRpmCallback | MD_controller/md_controller/src/md_controller.cpp:53-60 | the node's state becomes RpmCommand of the message's data[0] and data[1] |
| MdController.MdControllerNode.Send | MD_controller/md_controller/src/md_controller.cpp:73-83 | PutMdData with the node's MID and ID appends that command's packet to the port |
| MdController.MdControllerNode.InitMotorSequence | MD_controller/md_controller/src/md_controller.cpp:95-134 | the state and the bytes written follow InitSequence |
| MdController.MdControllerNode.ForwardAndRequest | MD_controller/md_controller/src/md_controller.cpp:65-84 | the initialised branch follows TimerStep in state and bytes |
| MdController.MdControllerNode.TimerCallback | MD_controller/md_controller/src/md_controller.cpp:62-93 | the state and the bytes written follow TimerTick, and a non-initialising read is analysed |
| MdTeleop.CheckRpmLimit | MD_controller/md_teleop/md_teleop/md_teleop.py:70-75 | the result lies in [-1000, 1000]; it equals the input exactly when the input is in range, else the nearer limit |
| MdTeleop.CheckRpmLimitMonotone | MD_controller/md_teleop/md_teleop/md_teleop.py:70-75 | saturation preserves order |
| MdTeleop.Lower | MD_controller/md_teleop/md_teleop/md_teleop.py:37 | ASCII upper-case letters become lower-case; other characters are unchanged |
| MdTeleop.KeyStep | MD_controller/md_teleop/md_teleop/md_teleop.py:38-53 | one key press; KeyStepInRange, KeysCaseInsensitive, OppositeKeysCancel and SpaceStops state its effect |
| MdTeleop.Replay | MD_controller/md_teleop/md_teleop/md_teleop.py:34-57 | the RPM pair after a key sequence; ReplayInRange keeps it within +-1000 |
| MdTeleop.Messages | MD_controller/md_teleop/md_teleop/md_teleop.py:55-57 | one message per key; the n-th is [left, -right] of the RPM pair after the first n keys |
| MdTeleop.KeyStepInRange | MD_controller/md_teleop/md_teleop/md_teleop.py:38-53 | one key keeps both RPMs within +-1000 |
| MdTeleop.ReplayInRange | MD_controller/md_teleop/md_teleop/md_teleop.py:36-57 | any key sequence from an in-range pair keeps both RPMs within +-1000 |
| MdTeleop.KeysCaseInsensitive | MD_controller/md_teleop/md_teleop/md_teleop.py:37 | W, S, A and D act like w, s, a and d |
| MdTeleop.OppositeKeysCancel | MD_controller/md_teleop/md_teleop/md_teleop.py:38-49 | away from the limits, s undoes w and d undoes a |
| MdTeleop.SpaceStops | MD_controller/md_teleop/md_teleop/md_teleop.py:51-53 | space sets both RPMs to 0 |
| MdTeleop.TeleopKey.constructor | MD_controller/md_teleop/md_teleop/md_teleop.py:23-28 | both RPMs start at 0 and nothing is published |
| MdTeleop.TeleopKey.HandleKey | MD_controller/md_teleop/md_teleop/md_teleop.py:37-57 | the RPM pair follows KeyStep, and [left, -right] is published |
| MdTeleop.TeleopKey.Run | MD_controller/md_teleop/md_teleop/md_teleop.py:34-57 | after a key sequence, the pair is Replay of the keys and the published messages are Messages of the keys |
| MdTeleop.TeleopKey.SignalHandler | MD_controller/md_teleop/md_teleop/md_teleop.py:63-68 | [0, 0] is published and the stored RPMs are unchanged |
| LineTracing.PositionExpanded | line_tracing/src/line_tracing.cpp:89-98 | the position is the sum of the weights -2, -1, 1 and 2 of the sensors reading exactly 1 |
| LineTracing.Position | line_tracing/src/line_tracing.cpp:89-98 | the weighted sensor position; PositionExpanded, PositionBounded and MirrorNegatesPosition state its value |
| LineTracing.PositionBounded | line_tracing/src/line_tracing.cpp:89-98 | the position lies in [-3, 3] |
| LineTracing.MirrorNegatesPosition | line_tracing/src/line_tracing.cpp:153 | mirroring the sensor bar negates the position |
| LineTracing.Clamp | line_tracing/src/line_tracing.cpp:121-122 | std::clamp: the result is in [lo, hi], and equals v when v is inside, else the nearer bound |
| LineTracing.SensorStepBounds | line_tracing/src/line_tracing.cpp:81-130 | one message keeps the error within +-3, stores it as the previous error, adds it to the integral, keeps both RPMs and the published integers in [-100, 100], and repeats the last error when no sensor is active |
| LineTracing.SensorStep | line_tracing/src/line_tracing.cpp:81-130 | one sensor message; SensorStepBounds and RampFromStandstill state its effect |
| LineTracing.RampFromStandstill | line_tracing/src/line_tracing.cpp:106-112 | from standstill the speed is 2k after k < 10 messages, and from the tenth on it is the base speed 20 and the ramp is over |
| LineTracing.LastValueIsGiven | line_tracing/src/line_tracing.cpp:51-67 | a gain is unchanged when no parameter names it, else it is the value of some parameter with that name |
| LineTracing.LineTracingNode.constructor | line_tracing/src/line_tracing.cpp:24-45 | the node starts stopped and running, with zero speed, RPMs, error and integral, and the given gains |
| LineTracing.LineTracingNode.WeighSensors | line_tracing/src/line_tracing.cpp:89-98 | the loop computes the weighted position and the number of active sensors |
| LineTracing.LineTracingNode.SensorCallback | line_tracing/src/line_tracing.cpp:81-140 | a message with other than five readings changes nothing; otherwise the state follows SensorStep, and the truncated [left, -right] is published only while running |
| LineTracing.LineTracingNode.StopMotors | line_tracing/src/line_tracing.cpp:69-78 | RPMs and speed become 0, the ramp restarts, and [0, 0] is published |
| LineTracing.LineTracingNode.StopCallback | line_tracing/src/line_tracing.cpp:142-147 | `true` pauses publishing and `false` resumes it; the motors stop either way |
| LineTracing.LineTracingNode.ParamCallback | line_tracing/src/line_tracing.cpp:51-67 | each gain becomes the last value given for its name; nothing else changes; the result is always successful |
| NavGeometry.GridWorldRoundTrip | unity_amr_nav/unity_amr_nav/advanced_navigation.py:63-73 | over exact reals, world_to_grid of grid_to_world of a cell is that cell |
| NavGeometry.WorldToGridContains | unity_amr_nav/unity_amr_nav/advanced_navigation.py:63-73 | a point right of and above the origin lies in the 10 cm square at its cell's world point |
| NavGeometry.WorldToGrid | unity_amr_nav/unity_amr_nav/advanced_navigation.py:63-67 | world_to_grid; GridWorldRoundTrip and WorldToGridContains relate it to GridToWorld |
| NavGeometry.GridToWorld | unity_amr_nav/unity_amr_nav/advanced_navigation.py:69-73 | grid_to_world; GridWorldRoundTrip and WorldToGridContains relate it to WorldToGrid |
| NavGeometry.Heuristic | unity_amr_nav/unity_amr_nav/advanced_navigation.py:122-123 | the A* heuristic; HeuristicSymmetric and HeuristicOfNeighbour state its properties |
| NavGeometry.HeuristicSymmetric | unity_amr_nav/unity_amr_nav/advanced_navigation.py:122-123 | the distance from a to b equals the distance from b to a |
| NavGeometry.HeuristicOfNeighbour | unity_amr_nav/unity_amr_nav/advanced_navigation.py:122-123 | between 8-neighbours the heuristic is sqrt(1) along an axis and sqrt(2), the step cost, across a corner |
| NavGeometry.StepCost | unity_amr_nav/unity_amr_nav/advanced_navigation.py:173 | a straight step costs 1 and a diagonal step costs sqrt(2); both are positive |
| NavGeometry.DynamicLookahead | unity_amr_nav/unity_amr_nav/advanced_navigation.py:275-277 | the lookahead lies in [0.5, 3.0], and equals 1.0 + 0.3*speed when that is inside |
| NavGeometry.DynamicLookaheadMonotone | unity_amr_nav/unity_amr_nav/advanced_navigation.py:275-277 | a faster robot looks at least as far ahead |
| NavGeometry.PurePursuit | unity_amr_nav/unity_amr_nav/advanced_navigation.py:304-329 | the linear speed is in [0, 1.0] and the angular speed in [-1.5, 1.5] |
| NavGeometry.PurePursuitCases | unity_amr_nav/unity_amr_nav/advanced_navigation.py:304-329 | within 0.3 of the target the command is zero (iff); otherwise full speed and Kp times the bearing until it saturates, turning to the target's side |
| NavGeometry.Ceil | unity_amr_nav/unity_amr_nav/advanced_navigation.py:85-86 | the least integer at or above x |
| NavGeometry.ArangeLenBounds | unity_amr_nav/unity_amr_nav/advanced_navigation.py:85-86 | np.arange's samples all lie below stop, and the next one would not |
| NavPlanner.NeighborsUpToContents | unity_amr_nav/unity_amr_nav/advanced_navigation.py:125-131 | the first k offsets yield exactly the free in-bounds cells at those offsets |
| NavPlanner.NeighborsExactly | unity_amr_nav/unity_amr_nav/advanced_navigation.py:125-131 | a cell is a neighbour exactly when it is 8-adjacent, in bounds and free |
| NavPlanner.GetNeighbors | unity_amr_nav/unity_amr_nav/advanced_navigation.py:125-131 | the loop returns the neighbour list, whose members are exactly the free adjacent cells |
| NavPlanner.PopMin | unity_amr_nav/unity_amr_nav/advanced_navigation.py:159 | heappop removes an entry no other entry precedes in (f, cell) order; the rest is the remaining multiset |
| NavPlanner.RelaxStep | unity_amr_nav/unity_amr_nav/advanced_navigation.py:176-180 | improving a neighbour keeps the search invariant: every parent is an adjacent free cell with smaller cost |
| NavPlanner.Relax | unity_amr_nav/unity_amr_nav/advanced_navigation.py:172-180 | the neighbour loop keeps the search invariant, never raises a cost, and only pushes adjacent free cells |
| NavPlanner.Reconstruct | unity_amr_nav/unity_amr_nav/advanced_navigation.py:161-169 | following came_from back from the goal gives a free 8-connected cell path from start to goal, as world points |
| NavPlanner.SampleEnds | unity_amr_nav/unity_amr_nav/advanced_navigation.py:215-218 | the first sample is the start and the last is the end |
| NavPlanner.LineClearEnds | unity_amr_nav/unity_amr_nav/advanced_navigation.py:211-227 | a clear line with at least one step has both endpoint cells in bounds and free |
| NavPlanner.IsLineClear | unity_amr_nav/unity_amr_nav/advanced_navigation.py:205-227 | true exactly when no step is needed, or every sample lands on an in-bounds free cell |
| NavPlanner.SmoothPath | unity_amr_nav/unity_amr_nav/advanced_navigation.py:185-203 | the result is a selection of the path's points in order; it keeps the first and last, is no longer than the path, is the path itself for <= 2 points, and has a clear line between kept points that were not adjacent |
| NavPlanner.FinishPath | unity_amr_nav/unity_amr_nav/advanced_navigation.py:161-170 | the returned path smooths a free cell path from start to goal and runs from the start's to the goal's world point |
| NavPlanner.PlanPathAStar | unity_amr_nav/unity_amr_nav/advanced_navigation.py:120-183 | each error case holds exactly when its check fails, in the source's order; a success is a smoothed free cell path from start to goal; start == goal gives the one-point path |
| Navigation.Arange | unity_amr_nav/unity_amr_nav/advanced_navigation.py:85-86 | np.arange has ArangeLen samples, start + k*step |
| Navigation.ShelfBox | unity_amr_nav/unity_amr_nav/advanced_navigation.py:77-83 | the shelf's bounding box is x in [0.03, 0.37] and y in [0.04, 1.07] |
| Navigation.ShelfSampleCounts | unity_amr_nav/unity_amr_nav/advanced_navigation.py:85-86 | the rasterisation takes 5 x-samples and 12 y-samples |
| Navigation.ShelfSampleCell | unity_amr_nav/unity_amr_nav/advanced_navigation.py:85-89 | sample (i, j) lands on cell (33 + i, 33 + j) |
| Navigation.SetupObstacles | unity_amr_nav/unity_amr_nav/advanced_navigation.py:75-93 | exactly cells x in 33..37 and y in 33..44 become occupied; the others are unchanged |
| Navigation.RasteriseColumn | unity_amr_nav/unity_amr_nav/advanced_navigation.py:86-89 | one x-sample marks the cells of its column and nothing else |
| Navigation.Progressed | unity_amr_nav/unity_amr_nav/advanced_navigation.py:331-340 | the index advances by one exactly when the current waypoint is within 0.2, otherwise it stays; it never passes the path's end |
| Navigation.ProgressStaysOnPath | unity_amr_nav/unity_amr_nav/advanced_navigation.py:262-292 | while the goal is not within 0.3, progress keeps the index on the path |
| Navigation.AdvancedNavigation.constructor | unity_amr_nav/unity_amr_nav/advanced_navigation.py:26-48 | no pose or goal, not navigating, an empty path, and a grid whose only occupied cells are the shelf's |
| Navigation.AdvancedNavigation.OdomCallback | unity_amr_nav/unity_amr_nav/advanced_navigation.py:247-255 | the pose, speed and yaw become the message's |
| Navigation.AdvancedNavigation.GoalCallback | unity_amr_nav/unity_amr_nav/advanced_navigation.py:95-118 | the goal is stored; with no pose, or when planning fails, nothing else changes; a success follows the smoothed planned path from index 0 |
| Navigation.AdvancedNavigation.FollowPath | unity_amr_nav/unity_amr_nav/advanced_navigation.py:111-114 | the path is adopted, the index is 0, and navigation is on |
| Navigation.AdvancedNavigation.FindLookaheadPoint | unity_amr_nav/unity_amr_nav/advanced_navigation.py:294-302 | None exactly when the index is past the path; otherwise the first waypoint from the index at least the lookahead away, else the last one |
| Navigation.AdvancedNavigation.UpdatePathProgress | unity_amr_nav/unity_amr_nav/advanced_navigation.py:331-345 | the index becomes Progressed of the old index |
| Navigation.AdvancedNavigation.StopNavigation | unity_amr_nav/unity_amr_nav/advanced_navigation.py:350-358 | navigation is off, the path is empty, the index is 0, and one zero Twist is published |
| Navigation.AdvancedNavigation.NavigationLoop | unity_amr_nav/unity_amr_nav/advanced_navigation.py:262-292 | idle: nothing changes; within 0.3 of the last waypoint: stop; otherwise the pure-pursuit command toward the lookahead point, and progress is updated |

## Left out

- MdProtocol.Consume and MdCom.Communication.AnalyzeReceivedData: the receive buffer has 256 entries, so a store at or past MAX_PACKET_SIZE is modelled as a write inside the buffer, not as an out-of-bounds write. RejectedReadsOverrun and HeaderFloodOverruns exhibit such stores.
- MdTeleop.Lower: only ASCII letters are lower-cased. No other character lower-cases to w, s, a, d or space under Python's `str.lower()`, so the key dispatch is unchanged.
- Floating-point rounding, NaN and infinities: doubles are exact reals, so `WorldToGrid` and the shelf rasterisation are exact. np.arange's floating-point sample count is taken as the exact ceiling.
- `sqrt`, `atan2`, `sin` and `cos` are uninterpreted. Only `sqrt(2) > 0` is assumed of them, as a precondition where the A* step cost needs it.
- ROS plumbing: publishers, subscriptions, QoS, timers, the logger, `main`, `rclcpp::ok`, `os.system('clear')` and `print`. Published messages are appended to a sequence field.
- `InitSerial`, the serial port and the byte-reading loop of `ReceiveDataFromController`: the bytes read are a parameter, at most `MAX_DATA_SIZE` of them. A read of fewer than 3 bytes checks `byRcvBuf[2]`, an uninitialised stack byte; the model reads it as "no acknowledgement".
- The com.hpp header is not part of this model: PIDs and sizes are symbolic fields of `Protocol`.
- Write-only `Com` fields (`fgComComple`, `byTotalRcvDataNum`, `byPacketSize`, `byChkSec`), `byCntControl`, the left/right position fields, and the node parameters (MDUI, port, baud rate, gear ratio, poles).
- `MdCom.Communication.PutMdData` requires the four-entry `nArray` the callers always pass.
- `publish_path_to_unity`: it only builds a ROS `Path` message.
- The quaternion-to-yaw conversion in `odom_callback`: the yaw is an input to `OdomCallback`.
- `normalize_angle`: it is never called.
- `get_current_linear_velocity`'s `None -> 0.5` fallback: the velocity is always a number, so the fallback cannot happen; `CurrentSpeed` returns the field.
- `goal_x`/`goal_y` are stored as `Option`; `rclcpp::shutdown()` and `rclpy.shutdown()` are a `shutdown` flag or are left out.
- NavPlanner.PlanPathAStar: the A* loop is bounded by a `fuel` number of pops, and running out returns `SearchBudgetExhausted`. Termination, optimality, and that `NoPathFound` means no path exists are not proved. The heap is a sequence with a minimum pop, so stale duplicate entries are popped again, as in the source.
- Navigation.AdvancedNavigation.NavigationLoop: the steering command is returned, not published, because the source's publish line is commented out.
- Python's dynamic typing: odometry and goal coordinates are always numbers.

## Findings

| source | as written | input that shows it | evidently intended | confidence | as-written member | corrected member |
|---|---|---|---|---|---|---|
| MD_controller/md_controller/src/com.cpp:323-338 | after a checksum byte that does not bring the running sum to 0, `byChkSum` and `byPacketNum` are not reset, so the failed frame's residue stays in the sum | a well-formed frame with its last byte changed, followed by the same frame unchanged: the second frame's sum is the non-zero residue, so it is never delivered | restart the sum and the packet counter after every checksum byte, accepted or not, so the next well-formed frame is delivered | not executed | MdParserProps.CorruptFrameBlocksNext | MdParserProps.ResyncRecoversAfterCorruptFrame |
| MD_controller/md_controller/src/com.cpp:248-338 | `byPacketNum` is checked against MAX_PACKET_SIZE only on entry to a call, and nothing else bounds it: step 5 leaves it as it is after a rejected checksum, so the next read stores after the rejected frame, and inside one read the call-local `count` (not reset on a bad ID byte) lets step 0 store header bytes without limit. Stores then run past MAX_PACKET_SIZE | with MAX_PACKET_SIZE not a multiple of 7, below 249, and MAX_DATA_SIZE at least 7: MAX_PACKET_SIZE / 7 + 1 reads of the 7-byte frame [184, 184, 1, 4, 1, 0, 139] from a clean state (with MAX_PACKET_SIZE 26 and MAX_DATA_SIZE 23: 4 reads, the counter going 0, 7, 14, 21, 28). Every read returns SUCCESS, the last one writes byte MAX_PACKET_SIZE of `byRcvBuf`, and every later call returns FAIL | restart the packet before storing a byte at MAX_PACKET_SIZE, and restart it when a call is refused | not executed | MdParserProps.RejectedReadsOverrun | MdParserProps.GuardedParserStaysInBuffer |
