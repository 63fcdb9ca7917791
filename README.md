# ExploBot protocol and planning model

ExploBot is a small exploration robot made of two programs.

- **Carto** is the controller on the robot, written in C. A postman thread owns the TCP server socket and a POSIX message queue (its *mailbox*). A dispatcher thread reads frames, decodes them and hands orders to the pilot. The pilot drives the motors and reports back through two proxies, `proxyMap` and `proxyCartography`.
- **Cute** is the operator console, written in C++/Qt with a Python planner.
  - Its own postman and dispatcher form a TCP client, and `proxyPilot` encodes orders for the robot.
  - A `Map` class holds the 20 x 20 grid the operator clicks on.
  - `window.cpp` converts the grid to text, runs `trajectory.py` (A* search plus `generate_commands.py`) and sends the resulting command list back to the robot.

This project models all of that in Dafny and proves properties of the model.

- **Frames.** Both directions of the wire protocol are modelled: two size bytes (high byte first, value = 2 + payload length), two type bytes, then the payload. Round trips are proved for every frame kind in each direction, on a little-endian host.
- **Postmans and dispatchers.**
  - Each postman's state machine is modelled twice: as functions over a connection record, and as a class proved against those functions.
  - The robot's table-driven state machine and the console's if/else chain are proved to agree except on WRITE_REQUEST.
  - Each dispatcher is a class over the shared reader state, with its `data_received` buffer as an array. The robot's dispatcher also holds the trajectory reassembly buffer `list_commands[50]`.
- **Pilot.** The pilot's heading tables and its `can_set_command` gate are modelled. Motor commands become a trace, and the ultrasound check becomes a boolean input.
- **Console map.** The `Map` grid is an `array2<int>` that the methods update in place.
- **Planner.**
  - The Python planner is modelled on `seq<seq<int>>` grids. A* has its open set as a sequence and `heappop` as a least-element choice.
  - The text formats that link the planner and the console are modelled: `formated_matrice`, `format_commands`, `convertMatrixToString`, `convertStringToCommands`, and the parser in `Map::update_entire_matrix_from_trajectory_result`. Round trips are proved between them.

Modules, one per file:

- `Protocol`: the enumerations of `defs.h`.
- `Codec`: frame layouts and the two `decode_message` functions.
- `Mailbox`: queue messages, `POSTMAN_read_msg` and `POSTMAN_action_send_msg`'s byte count.
- `ReaderState`: the dispatcher state variable shared with the postman.
- `CartoPostman`, `CartoDispatcher`, `CartoPilot` and `CartoProxies`: the robot side.
- `CutePostman`, `CuteDispatcher` and `CuteProxyPilot`: the console's TCP client.
- `CuteMap`: the `Map` class.
- `Text`: the Qt and Python string operations used by the text formats.
- `GenerateCommands`, `Trajectory` and `Window`: the planner and its connection to the console.

## Model

| member | source | states |
|---|---|---|
| Protocol.CommandCode | Carto/src/lib/defs.h:44-49 | FORWARD, RIGHT, LEFT and STOP are the bytes 0, 1, 2 and 3, and `CommandOfCode` reads every one of them back |
| Protocol.CommandOfCode | Carto/src/lib/defs.h:44-49 | Exactly the bytes 0..3 name a command, each the one whose code it is |
| Protocol.TypeTag | Carto/src/lib/defs.h:57-66 | The high byte of every message type is 1..8 |
| Protocol.TypeCode | Carto/src/lib/defs.h:57-66 | The 16-bit value of each message type lies in 0x0100..0x0800 with a zero low byte, and `TypeOfCode` reads it back as that type |
| Protocol.TypeOfCode | Carto/src/lib/defs.h:57-66 | A 16-bit value names a message type exactly when it is a multiple of 0x0100 from 0x0100 to 0x0800 |
| Protocol.TypeCodeInjective | Carto/src/lib/defs.h:57-66 | Distinct message types have distinct codes |
| Protocol.DirectionCode | Carto/src/lib/defs.h:95-100 | SOUTH, NORTH, WEST and EAST are the bytes 0, 1, 2 and 3 |
| Protocol.DirectionOfCode | Carto/src/lib/defs.h:95-100 | Exactly the bytes 0..3 name a heading, and `DirectionCode` inverts it |
| Codec.HtonsImage | Carto/src/com/proxyMap.c:54-62 | A field holding `htons(v)` lies in memory high byte first, and `ntohs` undoes `htons` |
| Codec.Int16 | Carto/src/lib/defs.h:74-77 | Storing a 16-bit pattern in `int16_t` gives a value in -32768..32767 that is congruent to it modulo 0x10000 |
| Codec.CartoFrame | Carto/src/com/proxyMap.c:54-62 | A robot frame is the size (2 + payload length) high byte first, then the type high byte first, then the payload, and it is well formed |
| Codec.ObstacleFrame | Carto/src/com/proxyMap.c:54-63 | `PROXYMAP_set_obstacle_position` sends the six bytes `00 04 04 00 x y`, with the coordinates truncated by `& 0xFF` |
| Codec.RobotCellFrame | Carto/src/com/proxyMap.c:65-73 | `PROXYMAP_set_robot_position` sends the six bytes `00 04 05 00 x y` |
| Codec.PositionReceivedFrame | Carto/src/com/proxyCartography.c:53-60 | ROBOT_POSITION_RECEIVED is the header `00 02 08 00` alone |
| Codec.MoveDoneFrame | Carto/src/com/proxyCartography.c:62-69 | MOVE_DONE is the header `00 02 03 00` alone |
| Codec.CartoDecode | Carto/src/com/dispatcher.c:263-270 | The robot reads the size big-endian into an `int16_t` and the type as `ntohs` of the big-endian value. It copies `size - 2` payload bytes only when the size exceeds 2 |
| Codec.CuteFrame | Cute/client_tcp/proxyPilot.cpp:48-56 | A console frame is `htons(size)`, then the first two bytes of the int-sized enum (low byte first), then the payload |
| Codec.StopRobotFrame | Cute/client_tcp/proxyPilot.cpp:48-56 | STOP_ROBOT is the four bytes `00 02 00 06` on a little-endian host |
| Codec.RobotPositionFrame | Cute/client_tcp/proxyPilot.cpp:58-68 | SEND_ROBOT_POSITION has size 5 and the payload x, y, dir, each cast to `uint8_t` |
| Codec.MoveCartographyFrameAsWritten | Cute/client_tcp/proxyPilot.cpp:70-80 | As written, the move frame announces size 2, so the four bytes transmitted hold no command |
| Codec.MoveCartographyFrame | Cute/client_tcp/proxyPilot.cpp:70-80 | The intended move frame: size 3 and the command's code as its payload |
| Codec.TrajectoryFrame | Cute/client_tcp/proxyPilot.cpp:82-94 | A trajectory frame has size 4 and the payload `[size mod 256, command]` |
| Codec.CuteTypeOf | Cute/client_tcp/dispatcher.cpp:230-257 | A value the console recognises is the code of one of the four kinds the robot sends (MOVE_DONE, ROBOT_POSITION_RECEIVED, SET_OBSTACLE_POSITION, SET_ROBOT_POSITION), and it is recognised as that kind |
| Codec.CuteDecode | Cute/client_tcp/dispatcher.cpp:227-262 | The console reads the type high byte first, without `ntohs`: a recognised type has the big-endian value as its code. It copies `size - 2` payload bytes only when the size exceeds 2 |
| Codec.RobotToConsole | Cute/client_tcp/dispatcher.cpp:227-262 | Every frame the robot sends is decoded by the console with its kind, size and payload |
| Codec.ConsoleIgnoresOtherKinds | Cute/client_tcp/dispatcher.cpp:230-257 | The four kinds only the console sends leave the console's `msg_type` unset |
| Codec.ConsoleToRobot | Carto/src/com/dispatcher.c:263-270 | Every console frame with a truthful size is decoded by the robot with its kind, size and payload |
| Codec.LargeSizeReadsNegative | Carto/src/lib/defs.h:74-77 | A size field of 0x8000 or more reads negative in `int16_t`, so no payload is copied |
| Codec.ErrorMarkerCollision | Carto/src/com/dispatcher.c:196-201 | A well-formed frame starts with the EBADF byte (9) exactly when its length is 0x0902..0x0A01, so frames of at most 255 bytes never collide with the marker |
| Codec.MoveCartographyLosesCommand | Cute/client_tcp/proxyPilot.cpp:70-80 | The robot decodes the as-written move frame as SEND_MOVE_CARTOGRAPHY with no payload |
| Codec.MoveCartographyDeliversCommand | Carto/src/com/dispatcher.c:230-239 | The intended move frame delivers exactly the command's code |
| Codec.TrajectoryFrameDelivers | Carto/src/com/dispatcher.c:216-229 | The robot decodes a trajectory frame as SEND_MOVES_TRAJECTORY with payload `[size mod 256, command]` |
| Codec.RobotPositionFrameDelivers | Carto/src/com/dispatcher.c:245-253 | The robot decodes a position frame with the three truncated bytes |
| Codec.ObstacleFrameDelivers | Cute/client_tcp/dispatcher.cpp:227-262 | The console decodes an obstacle report as SET_OBSTACLE_POSITION with payload `[x & 0xFF, y & 0xFF]` |
| Mailbox.Transmitted | Carto/src/com/postman.c:391-415 | The bytes written are a prefix of the buffer of at least the two size bytes, and exactly the buffer when it is a well-formed frame |
| Mailbox.ReadMsg | Carto/src/com/postman.c:417-462 | A closed descriptor, and only that, yields the one-byte EBADF buffer. NULL comes exactly from a failed read or an empty stream, and the peer is reported gone exactly on an open, empty stream. What is left unread is a suffix of the stream, and a buffer read from an open socket is a prefix of it |
| Mailbox.ReadsWholeFrame | Cute/client_tcp/postman.cpp:428-469 | A well-formed frame at the head of the stream is read back whole, and the rest of the stream is untouched |
| Mailbox.ReassemblesFrames | Carto/src/com/postman.c:417-462 | Reading the concatenation of any well-formed frames until the peer closes returns those frames, in order, then the close |
| Mailbox.NoProbeNoConnection | Carto/src/com/postman.c:490-530 | A mailbox with no connection probe holds no CONNECTION event |
| ReaderState.Gate.constructor | Carto/src/com/dispatcher.c:112 | The static state starts at S_IDLE |
| ReaderState.Gate.Start | Carto/src/com/dispatcher.c:146-153 | `DISPATCHER_start` sets S_IDLE whatever the state |
| ReaderState.Gate.StartReading | Carto/src/com/dispatcher.c:155-159 | `DISPATCHER_start_reading` sets S_READING_MSG whatever the state |
| ReaderState.Gate.Disconnect | Carto/src/com/dispatcher.c:161-165 | `DISPATCHER_disconnect` sets S_WAITING_RECONNECTION whatever the state |
| ReaderState.Gate.Stop | Carto/src/com/dispatcher.c:167-175 | `DISPATCHER_stop` sets S_STOP whatever the state |
| CartoPostman.Table | Carto/src/com/postman.c:272-280 | An entry is empty (destination S_FORGET) exactly when its action is the nop. Only STOP from either live state leads to S_DEATH. The send, polling and disconnect actions run exactly for WRITE_REQUEST while writing, POLL_CONNECTION while waiting and DISCONNECTION while writing. Writing is entered only on CONNECTION or WRITE_REQUEST, and waiting only on POLL_CONNECTION or DISCONNECTION |
| CartoPostman.PollingAction | Carto/src/com/postman.c:490-530 | Succeeds exactly on a timeout or an accepted client, and then adds exactly one probe (POLL_CONNECTION or CONNECTION) to the mailbox. It writes nothing and keeps the state |
| CartoPostman.SendAction | Carto/src/com/postman.c:391-415 | Succeeds exactly when the socket is open and the write does not fail outright, so a broken pipe still returns 0. The wire gains the transmitted bytes only on a full write, and the probes are unchanged |
| CartoPostman.DisconnectAction | Carto/src/com/postman.c:558-567 | Succeeds exactly when the socket is open. It then closes it, marks the postman waiting and adds one probe. Nothing is written |
| CartoPostman.Next | Carto/src/com/postman.c:464-488 | One iteration takes the oldest message. Without a table entry it is dropped and nothing else changes. Otherwise the action runs, and the state moves to the destination unless the action returned -1 |
| CartoPostman.Perform | Carto/src/com/postman.c:260-267 | The action table: NOP, CONNECTED and the final NOP succeed and change nothing; the other three are `DisconnectAction`, `PollingAction` and `SendAction` (its properties are stated by `Next` and the lemmas about it) |
| CartoPostman.AfterRead | Carto/src/com/postman.c:341-343 | The bytes read are consumed. When the client has closed, the dispatcher waits and DISCONNECTION is posted |
| CartoPostman.Loop | Carto/src/com/postman.c:464-488 | The run ends as died exactly when the state is S_DEATH |
| CartoPostman.Begin | Carto/src/com/postman.c:466-470 | The prologue of the postman thread: start in S_WAITING_CONNECTION and poll once (its property is stated by `BeginEstablishesInv`, and `Postman.Run` starts from it) |
| CartoPostman.BeginEstablishesInv | Carto/src/com/postman.c:466-470 | The prologue (start waiting, poll once) establishes the invariant: exactly one probe in flight while waiting |
| CartoPostman.StepKeepsInv | Carto/src/com/postman.c:472-486 | Every iteration that does not fail keeps the invariant |
| CartoPostman.PollingKeepsInv | Carto/src/com/postman.c:490-530 | The polling action replaces the consumed probe with exactly one new one |
| CartoPostman.PostKeepsInv | Carto/src/com/postman.c:333-381 | Write requests, DISCONNECTION and STOP posted by other threads keep the invariant |
| CartoPostman.NoConnectionWhileWriting | Carto/src/com/postman.c:272-280 | Under the invariant, no CONNECTION event is waiting while the postman writes |
| CartoPostman.UnlistedMessageIgnored | Carto/src/com/postman.c:477-485 | A message with no table entry is consumed and changes nothing else |
| CartoPostman.StopEndsRun | Carto/src/com/postman.c:272-280 | STOP in either live state ends the run normally, in S_DEATH |
| CartoPostman.WritesInOrder | Carto/src/com/postman.c:391-415 | While connected, queued frames are written to the client whole and in the order they were posted |
| CartoPostman.RecoversFromBrokenPipe | Carto/src/com/postman.c:391-415 | Given a write that returns -1 with EPIPE (which presumes SIGPIPE is ignored), a broken pipe leads, through DISCONNECTION, to the socket being closed, a new client being accepted and the postman writing again, with the dispatcher set to read. The stale `errno` that could post DISCONNECTION again on the next client is not part of the scenario |
| CartoPostman.BrokenPipeStep | Carto/src/com/postman.c:400-405 | A broken pipe while writing posts DISCONNECTION and changes nothing else |
| CartoPostman.DisconnectStep | Carto/src/com/postman.c:558-567 | DISCONNECTION while writing closes the socket and returns to waiting with one probe |
| CartoPostman.AcceptStep | Carto/src/com/postman.c:490-530 | A probe that finds a client accepts it and lets the dispatcher read its bytes |
| CartoPostman.ConnectedStep | Carto/src/com/postman.c:272-280 | CONNECTION while waiting moves the postman to writing |
| CartoPostman.LoopUnfold | Carto/src/com/postman.c:471-487 | An iteration that does not fail leaves the rest of the run to the loop |
| CartoPostman.Postman.constructor | Carto/src/com/postman.c:282-315 | An empty mailbox, no client and the waiting state |
| CartoPostman.Postman.Enqueue | Carto/src/com/postman.c:542-550 | A message is appended to the mailbox and nothing else changes |
| CartoPostman.Postman.SendRequest | Carto/src/com/postman.c:333-339 | A write request carrying the frame is appended to the mailbox |
| CartoPostman.Postman.Disconnect | Carto/src/com/postman.c:345-351 | DISCONNECTION is appended to the mailbox |
| CartoPostman.Postman.Stop | Carto/src/com/postman.c:353-381 | STOP is appended to the mailbox |
| CartoPostman.Postman.ReadRequest | Carto/src/com/postman.c:341-343 | Returns `ReadMsg`'s buffer and leaves the state `AfterRead` describes |
| CartoPostman.Postman.ActionPolling | Carto/src/com/postman.c:490-530 | Changes the state exactly as `PollingAction` |
| CartoPostman.Postman.ActionSend | Carto/src/com/postman.c:391-415 | Changes the state exactly as `SendAction` |
| CartoPostman.Postman.ActionDisconnection | Carto/src/com/postman.c:558-567 | Changes the state exactly as `DisconnectAction` |
| CartoPostman.Postman.Step | Carto/src/com/postman.c:472-486 | One iteration changes the state exactly as `Next` |
| CartoPostman.Postman.Run | Carto/src/com/postman.c:464-488 | The run ends in the state and with the outcome `Loop` gives after the prologue |
| CartoProxies.ProxyFramesComplete | Carto/src/com/proxyMap.c:54-63 | Every frame the robot's proxies build is well formed, so the postman transmits all of it and nothing more |
| CartoProxies.SetObstaclePosition | Carto/src/com/proxyMap.c:54-63 | Posts exactly one write request, carrying the obstacle frame |
| CartoProxies.SetRobotPosition | Carto/src/com/proxyMap.c:65-73 | Posts exactly one write request, carrying the robot-cell frame |
| CartoProxies.RobotPositionReceived | Carto/src/com/proxyCartography.c:53-60 | Posts exactly one write request, carrying the ROBOT_POSITION_RECEIVED header |
| CartoProxies.MoveDone | Carto/src/com/proxyCartography.c:62-69 | Posts exactly one write request, carrying the MOVE_DONE header |
| CartoDispatcher.Received | Carto/src/com/dispatcher.c:263-270 | `data_received` after decoding: the payload over its first bytes, the rest left from earlier frames |
| CartoDispatcher.OrderOf | Carto/src/com/dispatcher.c:213-261 | A move carries FORWARD, RIGHT or LEFT, whose code is payload byte 0. A trajectory frame gives `[byte 0, byte 1]`, and a position takes its three fields from the first three bytes. There is no order exactly when the kind is none of the four the robot obeys, or is a move whose byte is above 2 |
| CartoDispatcher.Collect | Carto/src/com/dispatcher.c:216-229 | Frame `[n, c]` stores c at `count_command`. While the counter is below n - 1 it advances; otherwise the list goes to the pilot and the counter restarts at 0 |
| CartoDispatcher.Feed | Carto/src/com/dispatcher.c:216-229 | Over a run of frames, the counter stays inside `list_commands` and grows by at most one per frame |
| CartoDispatcher.FeedPrefix | Carto/src/com/dispatcher.c:216-229 | Before its last frame, a trajectory has stored its commands so far and handed nothing on |
| CartoDispatcher.TrajectoryReassembly | Carto/src/com/dispatcher.c:216-229 | n consecutive frames of a trajectory of n commands (1 to 50) hand the n commands to the pilot exactly once, after the last frame and in arrival order, and reset the counter |
| CartoDispatcher.LongTrajectoryOverflows | Carto/src/com/dispatcher.c:133 | A trajectory of more than 50 commands brings `count_command` to 50, one past the end of `list_commands`; the next trajectory frame would write there, and `Loop` ends the run as `Undefined` at that frame |
| CartoDispatcher.Obey | Carto/src/com/dispatcher.c:213-261 | Only a trajectory touches the reassembly buffer. A trajectory, STOP or no order sends no frame. The buffer stays within its 50 slots |
| CartoDispatcher.RunStep | Carto/src/com/dispatcher.c:184-211 | Nothing changes outside S_READING_MSG. An iteration never changes the postman's wire, state or socket |
| CartoDispatcher.Loop | Carto/src/com/dispatcher.c:184-211 | The run ends as stopped exactly when the state is S_STOP; the loop writes nothing to the wire. The run ends as `Undefined` before an iteration whose behaviour is undefined: a read that returns a single size byte, a message carrying more than 20 payload bytes (which would overflow `data_received`), or a trajectory frame arriving while `count_command` is 50 (which would write `list_commands[50]`) |
| CartoDispatcher.ReadsOnlyWhenReading | Carto/src/com/dispatcher.c:184-211 | The socket is read only in S_READING_MSG |
| CartoDispatcher.ClosedSocketMeansWait | Carto/src/com/dispatcher.c:196-201 | A closed socket yields the error buffer, which only moves the dispatcher to S_WAITING_RECONNECTION |
| CartoDispatcher.FrameTakenForError | Carto/src/com/dispatcher.c:196-201 | A frame whose size field starts with 0x09 is taken for the error buffer: it is consumed and never obeyed |
| CartoDispatcher.ObeysFrame | Carto/src/com/dispatcher.c:184-211 | A frame at the head of the stream is decoded and obeyed, and only it is consumed |
| CartoDispatcher.StopIsFinal | Carto/src/com/dispatcher.c:184-211 | A stopped dispatcher does nothing more |
| CartoDispatcher.Dispatcher.constructor | Carto/src/com/dispatcher.c:141-144 | `data_received` holds what malloc returned, `list_commands` is zeroed and the counter is 0 |
| CartoDispatcher.Dispatcher.Start | Carto/src/com/dispatcher.c:146-153 | Sets S_IDLE and opens the pilot's gate |
| CartoDispatcher.Dispatcher.Decode | Carto/src/com/dispatcher.c:263-270 | Returns `CartoDecode`'s header and copies its payload into `data_received` |
| CartoDispatcher.Dispatcher.Dispatch | Carto/src/com/dispatcher.c:213-261 | Carries out exactly `Obey` on the order `OrderOf` reads |
| CartoDispatcher.Dispatcher.Step | Carto/src/com/dispatcher.c:184-211 | One iteration changes the world exactly as `RunStep` |
| CartoDispatcher.Dispatcher.Run | Carto/src/com/dispatcher.c:184-211 | The run ends in the world and with the outcome `Loop` gives, `Undefined` included: it returns before an iteration that would read a single size byte, overflow `data_received`, or write `list_commands[50]` |
| CartoPilot.Offset | Carto/src/controller/pilot.c:90-103 | Every heading's offset (SOUTH x + 1, NORTH x - 1, WEST y - 1, EAST y + 1) is one unit step |
| CartoPilot.TurnsAreQuarterTurns | Carto/src/controller/pilot.c:116-139 | LEFT rotates the offset a quarter turn and RIGHT back. RIGHT undoes LEFT, four LEFTs are no turn, and two turns reverse the heading |
| CartoPilot.TurnLeft | Carto/src/controller/pilot.c:116-127 | SOUTH→EAST, NORTH→WEST, WEST→SOUTH, EAST→NORTH; a byte naming no heading is kept |
| CartoPilot.TurnRight | Carto/src/controller/pilot.c:128-139 | SOUTH→WEST, NORTH→EAST, WEST→NORTH, EAST→SOUTH; a byte naming no heading is kept |
| CartoPilot.TurnsOnBytes | Carto/src/controller/pilot.c:116-139 | On the stored heading byte too, RIGHT undoes LEFT and four LEFTs are no turn |
| CartoPilot.Ahead | Carto/src/controller/pilot.c:90-114 | There is a cell in front exactly when the stored heading byte names a heading, and that cell is one unit step from the robot |
| CartoPilot.SetPose | Carto/src/controller/pilot.c:80-85 | The pose is stored and ROBOT_POSITION_RECEIVED posted (the trace `Pilot.SendRobotPosition` is proved to follow) |
| CartoPilot.MoveCartography | Carto/src/controller/pilot.c:87-141 | The effect of one cartography move on pose, motors and frames (its properties are stated by `MoveIsBracketed`, `ForwardKeepsPose` and `ForwardReportsCellAhead`) |
| CartoPilot.MovesTrajectory | Carto/src/controller/pilot.c:143-155 | The first `size` commands reach the motors in order when the gate is open, and the gate ends open (the trace of `Pilot.SendMovesTrajectory` and `StopDropsNextTrajectory`) |
| CartoPilot.MoveIsBracketed | Carto/src/controller/pilot.c:87-141 | Every move reports ROBOT_POSITION_RECEIVED first and MOVE_DONE last, with at most one cell report between. It changes neither the stored coordinates nor the gate |
| CartoPilot.ForwardKeepsPose | Carto/src/controller/pilot.c:104-114 | FORWARD leaves the stored pose alone, and STOP changes nothing at all |
| CartoPilot.ForwardReportsCellAhead | Carto/src/controller/pilot.c:89-114 | With an obstacle, FORWARD drives nothing and reports the cell ahead as an obstacle. Without one, it drives forward once and reports that cell as the robot's |
| CartoPilot.Halted | Carto/src/controller/pilot.c:157-162 | The gate is closed and STOP reaches the motors (stated by `StopDropsNextTrajectory`, and the trace `Pilot.StopRobot` is proved to follow) |
| CartoPilot.StopDropsNextTrajectory | Carto/src/controller/pilot.c:143-162 | After a stop, the next trajectory reaches no motor but reopens the gate, so the one after it is driven in full |
| CartoPilot.Pilot.constructor | Carto/src/controller/pilot.c:55-56 | The gate starts closed and the trace is empty |
| CartoPilot.Pilot.Create | Carto/src/controller/pilot.c:65-72 | Opens the gate and changes nothing else |
| CartoPilot.Pilot.SendRobotPosition | Carto/src/controller/pilot.c:80-85 | Stores the pose and posts ROBOT_POSITION_RECEIVED |
| CartoPilot.Pilot.SendMoveCartography | Carto/src/controller/pilot.c:87-141 | Changes the pose and trace, and posts the frames, exactly as `MoveCartography` |
| CartoPilot.Pilot.SendMovesTrajectory | Carto/src/controller/pilot.c:143-155 | With the gate open, `list[0..size)` reaches the motors in order; afterwards the gate is open |
| CartoPilot.Pilot.StopRobot | Carto/src/controller/pilot.c:157-162 | Closes the gate, then sends STOP to the motors |
| CutePostman.PollingAction | Cute/client_tcp/postman.cpp:526-552 | Always adds exactly one probe: CONNECTION after a successful connect, POLL_CONNECTION otherwise. The socket becomes open exactly when it was open or a fresh socket connects, and a closed socket stays closed. Nothing is written |
| CutePostman.SendAction | Cute/client_tcp/postman.cpp:406-426 | On an open socket a full write puts the transmitted bytes on the wire, and a broken pipe posts DISCONNECTION. A socket never connected fails the write with EPIPE and posts DISCONNECTION; a closed one changes nothing. Only a full write on an open socket touches the wire. The state and the socket are kept |
| CutePostman.DisconnectAction | Cute/client_tcp/postman.cpp:578-590 | The socket ends closed and nothing is written. A socket not yet closed leaves the postman waiting with one more probe. Closing a closed socket changes nothing |
| CutePostman.Next | Cute/client_tcp/postman.cpp:484-521 | An iteration never writes to the wire, and in S_DEATH it only consumes the message. The transitions of the if/else chain are stated by `SameDestinationsAsRobot` |
| CutePostman.AfterRead | Cute/client_tcp/postman.cpp:362-364 | The bytes read are consumed, and the wire, state and socket are kept. When the robot closes, DISCONNECTION is posted and the dispatcher waits |
| CutePostman.Loop | Cute/client_tcp/postman.cpp:471-524 | The run ends as died exactly when the state is S_DEATH, and the loop itself writes nothing to the wire |
| CutePostman.SameDestinationsAsRobot | Cute/client_tcp/postman.cpp:484-521 | In either live state, the chain moves to the destination the robot's table gives, or stays put where that table says S_FORGET |
| CutePostman.WriteRequestWritesNothing | Cute/client_tcp/postman.cpp:501-506 | WRITE_REQUEST while writing leaves the wire as it was |
| CutePostman.Begin | Cute/client_tcp/postman.cpp:471-476 | The prologue of the postman thread: start in S_WAITING_CONNECTION and try to connect once (its property is stated by `BeginEstablishesInv`, and `Postman.Run` starts from it) |
| CutePostman.BeginEstablishesInv | Cute/client_tcp/postman.cpp:471-483 | The prologue establishes the invariant: exactly one probe while waiting |
| CutePostman.StepKeepsInv | Cute/client_tcp/postman.cpp:484-521 | Every iteration keeps the invariant |
| CutePostman.PostKeepsInv | Cute/client_tcp/postman.cpp:351-397 | Messages posted by other threads keep the invariant |
| CutePostman.SendKeepsInv | Cute/client_tcp/postman.cpp:351-360 | A synchronous send, which may post DISCONNECTION, keeps the invariant |
| CutePostman.ClosedForever | Cute/client_tcp/postman.cpp:526-552 | Once the socket is closed it stays closed, whatever the loop receives, so the console never reconnects |
| CutePostman.ProbeAfterCloseRepeats | Cute/client_tcp/postman.cpp:526-552 | A probe on a closed socket is answered by another probe and nothing else |
| CutePostman.SendWritesFrame | Cute/client_tcp/postman.cpp:351-360 | A frame sent while connected reaches the wire at once and whole |
| CutePostman.Postman.constructor | Cute/client_tcp/postman.cpp:301-336 | An empty mailbox, a fresh unconnected socket and the waiting state |
| CutePostman.Postman.Enqueue | Cute/client_tcp/postman.cpp:563-570 | A message is appended to the mailbox and nothing else changes |
| CutePostman.Postman.SendRequest | Cute/client_tcp/postman.cpp:351-360 | WRITE_REQUEST is posted, then the frame is written in the caller's thread |
| CutePostman.Postman.Disconnect | Cute/client_tcp/postman.cpp:366-374 | DISCONNECTION is appended to the mailbox |
| CutePostman.Postman.Stop | Cute/client_tcp/postman.cpp:376-397 | STOP is appended to the mailbox |
| CutePostman.Postman.ReadRequest | Cute/client_tcp/postman.cpp:362-364 | Returns the read buffer and leaves the state `AfterRead` describes |
| CutePostman.Postman.ActionPolling | Cute/client_tcp/postman.cpp:526-552 | Changes the state exactly as `PollingAction` |
| CutePostman.Postman.ActionSend | Cute/client_tcp/postman.cpp:406-426 | Changes the state exactly as `SendAction` |
| CutePostman.Postman.ActionDisconnection | Cute/client_tcp/postman.cpp:578-590 | Changes the state exactly as `DisconnectAction` |
| CutePostman.Postman.Step | Cute/client_tcp/postman.cpp:484-521 | One iteration changes the state exactly as `Next` |
| CutePostman.Postman.Run | Cute/client_tcp/postman.cpp:471-524 | The run ends in the state and with the outcome `Loop` gives after the prologue |
| CuteDispatcher.Received | Cute/client_tcp/dispatcher.cpp:258-260 | `data_received` after decoding: the payload over its first bytes, the rest unchanged |
| CuteDispatcher.RunStep | Cute/client_tcp/dispatcher.cpp:166-196 | Nothing changes outside S_READING_MSG. An iteration never changes the postman's wire, state or socket, nor the size of `data_received` |
| CuteDispatcher.Loop | Cute/client_tcp/dispatcher.cpp:166-196 | The run ends as stopped exactly when the state is S_STOP; the loop writes nothing to the wire. The run ends as `Undefined` before an iteration whose read would return a single size byte, or whose message carries more than 20 payload bytes (which would overflow `data_received`) |
| CuteDispatcher.PeerCloseEndsThread | Cute/client_tcp/dispatcher.cpp:171-193 | When the robot closes, the thread ends for good after telling the postman; it never reads a later connection |
| CuteDispatcher.DecodesRobotFrame | Cute/client_tcp/dispatcher.cpp:227-262 | A robot frame at the head of the stream is decoded with its kind, and its payload lands in `data_received` |
| CuteDispatcher.Dispatcher.constructor | Cute/client_tcp/dispatcher.cpp:124-127 | `data_received` holds what malloc returned |
| CuteDispatcher.Dispatcher.Decode | Cute/client_tcp/dispatcher.cpp:227-262 | Returns `CuteDecode`'s header and copies its payload into `data_received` |
| CuteDispatcher.Dispatcher.Step | Cute/client_tcp/dispatcher.cpp:166-196 | One iteration changes the world exactly as `RunStep` |
| CuteDispatcher.Dispatcher.Run | Cute/client_tcp/dispatcher.cpp:166-196 | The run ends in the world and with the outcome `Loop` gives, `Undefined` included: it returns before the iteration that would overflow `data_received` |
| CuteProxyPilot.TrajectoryFrames | Cute/client_tcp/proxyPilot.cpp:82-94 | One frame per command, in index order, each carrying the whole list's length |
| CuteProxyPilot.SendOne | Cute/client_tcp/postman.cpp:351-360 | One `POSTMAN_send_request`: the write request is queued and the frame sent with the given write outcome (what reaches the wire is stated by `SendAllConnected` and `SendAllUnconnected`; every single-frame proxy call is proved to follow it) |
| CuteProxyPilot.SendAll | Cute/client_tcp/proxyPilot.cpp:82-94 | Frames sent one after another, each through its own `POSTMAN_send_request` with its own write outcome (what reaches the wire is stated by `SendAllConnected` and `SendAllUnconnected`) |
| CuteProxyPilot.SendAllConnected | Cute/client_tcp/postman.cpp:351-360 | On a connected socket whose writes succeed, the frames reach the wire whole and in order, and one write request per frame is posted |
| CuteProxyPilot.SendAllUnconnected | Cute/client_tcp/postman.cpp:351-360 | Without a connection nothing is written: the frames are lost |
| CutePostman.DisconnectionWhileWaitingDropped | Cute/client_tcp/postman.cpp:484-499 | A DISCONNECTION taken while waiting for the connection (as posted by a send before the first connect) is dropped: only that message leaves the mailbox |
| CuteProxyPilot.StopRobot | Cute/client_tcp/proxyPilot.cpp:48-56 | Sends the STOP_ROBOT frame synchronously |
| CuteProxyPilot.SendRobotPosition | Cute/client_tcp/proxyPilot.cpp:58-68 | Sends the position frame with the truncated bytes |
| CuteProxyPilot.SendMoveCartography | Cute/client_tcp/proxyPilot.cpp:70-80 | Sends the as-written move frame: size 2, the four header bytes only, the same for every command |
| CuteProxyPilot.SendMoveCartographyCorrected | Cute/client_tcp/proxyPilot.cpp:70-80 | The corrected member of the third Findings row: sends the size-3 frame carrying the command's code |
| CuteProxyPilot.SendMovesTrajectory | Cute/client_tcp/proxyPilot.cpp:82-94 | Sends exactly `size` frames in index order; a negative size sends nothing |
| CuteMap.FormattedMatrixParses | Cute/map.cpp:96-118 | Parsing `formated_matrice`'s text returns the matrix, for every non-empty matrix of non-empty rows of int-sized numbers |
| CuteMap.FormattedMatrixLoads | Cute/map.cpp:96-118 | Loading the planner's text of a 20 x 20 matrix puts every cell back, whatever the local matrix held |
| CuteMap.Map.constructor | Cute/map.cpp:20-28 | Every cell non-cartographied, no robot, no destination, clicks off |
| CuteMap.Map.InitMap | Cute/map.cpp:31-38 | All 400 cells become non-cartographied (2) and nothing else changes |
| CuteMap.Map.UpdateMatrixElement | Cute/map.cpp:51-58 | Exactly cell [y][x] takes the value when 0 <= x, y < 20; otherwise nothing changes |
| CuteMap.Map.SetObstacle | Cute/map.cpp:60-67 | Exactly cell [y][x] becomes an obstacle when in range; otherwise nothing changes |
| CuteMap.Map.SetCartographiedArea | Cute/map.cpp:69-76 | Exactly cell [y][x] becomes cartographied when in range; otherwise nothing changes |
| CuteMap.Map.SetNonCartographiedArea | Cute/map.cpp:78-85 | Exactly cell [y][x] becomes non-cartographied when in range; otherwise nothing changes |
| CuteMap.Map.UpdateEntireMatrix | Cute/map.cpp:87-94 | Every cell is copied from the source matrix |
| CuteMap.Map.UpdateFromTrajectoryResult | Cute/map.cpp:96-118 | Every cell takes the parsed number, or keeps what the local matrix held where the text has none |
| CuteMap.Map.EnableMapClick | Cute/map.cpp:171-174 | Sets the click flag and nothing else |
| CuteMap.Map.Relabel | Cute/map.cpp:327-366 | Every cell holding one value gets another; the rest is unchanged |
| CuteMap.Map.MarkWhere | Cute/map.cpp:253-272 | Every cell that is 1 in the mask and holds one value gets another; the rest is unchanged |
| CuteMap.Map.SetRobotPosition | Cute/map.cpp:176-203 | In range: the old robot cells become cartographied, [y][x] becomes the only robot cell and the coordinates are recorded. Out of range: nothing changes |
| CuteMap.Map.SetDestination | Cute/map.cpp:206-228 | The old destination cells become cartographied, and [y][x] becomes the only destination cell |
| CuteMap.Map.SetDestinationAndRobotPosition | Cute/map.cpp:233-250 | Ignored while clicks are off. A cell other than cartographied raises popup 4. Otherwise the first click places the robot, and the next places the destination and turns clicks off |
| CuteMap.Map.SetWaypoints | Cute/map.cpp:253-272 | Only cells cartographied in the map and 1 in the mask become waypoints |
| CuteMap.Map.SetWaypoint | Cute/map.cpp:275-288 | Cell [x][y] becomes a waypoint if it is cartographied; nothing else changes |
| CuteMap.Map.ResetTrajectoryWithParameter | Cute/map.cpp:290-324 | The masked waypoints and every destination cell become cartographied, and the destination is unset |
| CuteMap.Map.ResetTrajectory | Cute/map.cpp:327-366 | No waypoint, robot or destination cell is left (they become cartographied), other cells are kept, and all four coordinates are -1 |
| CuteMap.Map.ResetMap | Cute/map.cpp:369-382 | The initial map again, with robot and destination unset, keeping the click flag |
| Text.Show | Cute/trajectory.py:157 | `str` of an int: an optional minus sign, then digits |
| Text.ToInt | Cute/map.cpp:109 | `QString::toInt`: an optional sign, then digits; text that is not a number, or a value outside 32 bits, reads as 0 (its inverse property is `ShowToInt`) |
| Text.DigitsValue | Cute/trajectory.py:157 | The digits of a natural number read back as that number |
| Text.ShowToInt | Cute/map.cpp:109 | `toInt` reads back `str(n)` for every 32-bit n |
| Text.Trimmed | Cute/window.cpp:554 | The result neither starts nor ends with whitespace |
| Text.TrimmedUnspaced | Cute/window.cpp:554 | A text that neither starts nor ends with whitespace is left as it is |
| Text.TrimmedLine | Cute/window.cpp:554 | Trimming a printed line removes exactly its newline |
| Text.Split | Cute/window.cpp:556 | Splitting yields at least one part |
| Text.SplitJoin | Cute/map.cpp:101 | Splitting on a separator that no part contains gives back the parts joined with it |
| Text.SplitSkipJoin | Cute/window.cpp:556 | The same with `SkipEmptyParts`, for non-empty parts |
| Text.Erase | Cute/map.cpp:100 | `replace(pat, "")` never lengthens the text |
| Text.EraseKeeps | Cute/map.cpp:100 | Erasing leaves a prefix with no occurrence of the pattern as it is |
| Text.ParseNested | Cute/map.cpp:96-118 | One row per piece between the row separators, each the numbers read from its pieces |
| Text.NestedRoundTrip | Cute/map.cpp:96-118 | The parser inverts the nested-list printer, for any bracket pair and any non-empty matrix of non-empty rows of 32-bit numbers |
| Text.NestedLacks | Cute/trajectory.py:151-157 | The printed matrix contains no character other than digits, '-', ',' and its brackets |
| GenerateCommands.DirectionOf | Exe/generate_commands.py:48-52 | Names a heading exactly when dx or dy is 1 or -1, and none for any other offset (which heading is stated by `DirectionOfUnitStep`) |
| GenerateCommands.DirectionOfUnitStep | Exe/generate_commands.py:48-52 | For every unit step, `determine_direction` names exactly the heading whose offset is that step |
| GenerateCommands.DirectionOfOffset | Exe/generate_commands.py:48-52 | Every heading's offset is named back |
| GenerateCommands.TurnTableIsCycle | Exe/generate_commands.py:58-63 | The clockwise table NORD→EST→SUD→OUEST is a cycle of length four, and the anticlockwise column inverts it |
| GenerateCommands.Drive | Carto/src/controller/pilot.c:104-139 | What the commands do on the robot: FORWARD moves one cell ahead and RIGHT/LEFT turn on the spot. The final heading is the one the turns alone give |
| GenerateCommands.TurnAsWritten | Exe/generate_commands.py:54-68 | At most one turn, and none exactly when the robot already faces the needed heading. The heading returned is the one that turn gives |
| GenerateCommands.ReversalFacesAside | Exe/generate_commands.py:58-68 | After a reversal the script faces away from the step it is about to take |
| GenerateCommands.Turn | Exe/generate_commands.py:54-68 | The corrected table faces the needed heading. It turns not at all exactly when the robot already faces it, and otherwise at most twice |
| GenerateCommands.TurnsAgree | Exe/generate_commands.py:54-68 | The script's table and the corrected one agree on everything but a reversal |
| GenerateCommands.WalkShape | Exe/generate_commands.py:31-44 | n steps give exactly n FRONTs and between n and 2n commands (3n corrected), the last one FRONT |
| GenerateCommands.Walk | Exe/generate_commands.py:31-44 | The loop of `generate_commands` over a list of points: each step adds its turn, from the script's table or the corrected one, then one FRONT (its shape is stated by `WalkShape`) |
| GenerateCommands.GenerateAsWritten | Exe/generate_commands.py:19-46 | The script's output: nothing for a path of fewer than two cells; otherwise exactly one FRONT per path cell, at most one turn before each, and FRONT last |
| GenerateCommands.GenerateScript | Exe/generate_commands.py:19-46 | The script's guard and loop return exactly `GenerateAsWritten` |
| GenerateCommands.OneStepPathIsDropped | Exe/generate_commands.py:25-26 | A destination next to the robot gives no command at all |
| GenerateCommands.WestFirstGoesAstray | Exe/generate_commands.py:58-68 | A path whose first step is to the west gives [LEFT, FRONT, LEFT, FRONT], which ends at (4,4) instead of (5,3) |
| GenerateCommands.WalkDrives | Exe/generate_commands.py:19-46 | The corrected commands drive the robot from the first point of a walk, facing EST, through every later point in order (the cells visited are exactly the rest of the walk). It ends on the last point, facing the heading the generator reports |
| GenerateCommands.AsWrittenAgrees | Exe/generate_commands.py:19-46 | The script agrees with the corrected generator on every walk of two or more cells that never steps straight back and whose first step is not west |
| GenerateCommands.Generate | Exe/generate_commands.py:19-46 | The robot's cell is put in front of the path; the commands are the corrected walk's |
| GenerateCommands.FixtureOne | Cute/Test_Trajectory.py:63 | The script, on the first fixture's path (the cells its expected matrix marks), gives [F,F,F,R,F,F,F] |
| GenerateCommands.FixtureTwo | Cute/Test_Trajectory.py:65 | The script, on the second fixture's path, gives [L,F,F,F,L,F,F,F] |
| GenerateCommands.FixtureThree | Cute/Test_Trajectory.py:67 | The script, on the third fixture's path, gives [F,R,F,L,F,R,F,F,L,F] |
| Trajectory.FormattedMatrix | Cute/trajectory.py:151-157 | The matrix text starts with `{`, ends with `}`, and holds no bar separator and no line break (that it parses back is `CuteMap.FormattedMatrixParses`) |
| Trajectory.FormatCommands | Cute/trajectory.py:159-165 | The command text starts with `{`, ends with `}`, and holds no bar separator and no line break |
| Trajectory.ScriptOutput | Cute/trajectory.py:188-191 | The result line holds exactly two bar separators, right after the matrix text and right after the command text, and no line break |
| Trajectory.Codes | Cute/trajectory.py:159-165 | FRONT, RIGHT and LEFT print as 0, 1 and 2, one number per command |
| Trajectory.Manhattan | Cute/trajectory.py:114-121 | Non-negative, and zero exactly for equal cells |
| Trajectory.ManhattanMetric | Cute/trajectory.py:114-121 | Symmetric, satisfies the triangle inequality, and is 1 exactly for 4-adjacent cells |
| Trajectory.NeighborsAreOpenSteps | Cute/trajectory.py:123-136 | A cell is a neighbour exactly when it is 4-adjacent, in the grid, and PASSAGE or DESTINATION |
| Trajectory.GetNeighbors | Cute/trajectory.py:123-136 | Returns those cells in the order (0,1), (1,0), (-1,0), (0,-1) |
| Trajectory.PathBackLeads | Cute/trajectory.py:138-149 | The chain behind a cell of a ranked, linked `came_from` is a path of open, adjacent cells from the chain's start to the cell |
| Trajectory.ReconstructPath | Cute/trajectory.py:138-149 | Returns the chain of predecessors of `current`, oldest first, without the start. Its ghost scores only show that the walk back ends |
| Trajectory.Least | Cute/trajectory.py:92 | `heappop` takes an entry that no other entry precedes in tuple order |
| Trajectory.Cells | Cute/trajectory.py:108 | The cells of the open set, in order |
| Trajectory.AStar | Cute/trajectory.py:76-111 | A non-empty result is a path of distinct open cells from the start to the goal, each adjacent to the one before, the first adjacent to the start. An empty result means the start is the goal or no path exists |
| Trajectory.Relax | Cute/trajectory.py:99-109 | Relaxing one open neighbour of the expanded cell keeps the search invariant (chains ranked, linked and leading back to the start, every scored cell queued or closed), and the neighbour ends scored |
| Trajectory.Expand | Cute/trajectory.py:97-109 | The loop over `get_neighbors(current)` keeps the search invariant: the chains stay ranked, linked and leading back to the start, and every scored cell is queued or closed |
| Trajectory.PopKeeps | Cute/trajectory.py:92-95 | Taking a cell other than the goal off the queue keeps the search invariant |
| Trajectory.Relaxes | Cute/trajectory.py:101-109 | Recording a shorter way keeps the chains ranked, linked and leading back to the start |
| Trajectory.FoundLeads | Cute/trajectory.py:94-95 | When the goal is popped, its chain is a path from the start |
| Trajectory.NothingLeads | Cute/trajectory.py:111 | When the queue is empty, no path reaches the goal |
| Trajectory.ReachedIsScored | Cute/trajectory.py:111 | With every scored cell closed, every cell of a walk from the start is scored |
| Trajectory.Cleared | Cute/trajectory.py:42 | UNKNOWN cells become OBSTACLE; every other cell is kept |
| Trajectory.FirstCell | Cute/trajectory.py:62-74 | The first cell in row-major order holding the value, or none when no cell holds it |
| Trajectory.MakeTrajectory | Cute/trajectory.py:35-60 | UNKNOWN becomes OBSTACLE, and the path's cells other than robot and destination become WAYPOINT. A missing robot or destination, or no path, gives no commands. Otherwise the commands are the script's for the path found, with their count; they drive the robot along the path to the destination when the path has two cells or more and does not start to the west, and the corrected generator's commands would on every path found |
| Trajectory.PlanDrives | Cute/trajectory.py:47-57 | For a simple path found from the robot's cell, the script's commands reach the goal along the path when it has two cells or more and does not start to the west; the corrected generator's always do |
| Trajectory.ClearUnknown | Cute/trajectory.py:42 | Changes the matrix exactly as `Cleared` |
| Trajectory.DrawPath | Cute/trajectory.py:53-55 | Every path cell other than the robot's and the destination's becomes WAYPOINT; the rest is unchanged |
| Trajectory.Printed | Cute/trajectory.py:186-193 | The main block prints nothing only when the search does not finish, and otherwise at most one line, ended by a line break |
| Window.MatrixCloses | Cute/window.cpp:505-509 | Closing the stream after n rows gives the nested-list text of those rows, which the planner's parser reads back |
| Window.WriteBracketedRow | Cute/window.cpp:498-506 | One pass of the outer loop: the text so far becomes the text opened for one more row |
| Window.ConvertMatrixToString | Cute/window.cpp:491-512 | The text is `[` + rows joined by `,` + `]`, each row `[` + 20 numbers joined by `,` + `]`, and it reads back as the matrix |
| Window.WriteRow | Cute/window.cpp:497-503 | Appends one bracketed row of 20 numbers |
| Window.CommandOfChar | Cute/window.cpp:520-534 | '0'..'3' are FORWARD, RIGHT, LEFT and STOP; any other character is skipped |
| Window.Decoded | Cute/window.cpp:516-537 | No more commands than characters |
| Window.DecodedConcat | Cute/window.cpp:516-537 | Decoding a concatenation decodes the parts one after the other, keeping order |
| Window.ConvertStringToCommands | Cute/window.cpp:516-537 | The loop returns exactly `Decoded` of the text |
| Window.DecodedShow | Cute/window.cpp:516-537 | A printed command code decodes to that command |
| Window.Parts | Cute/window.cpp:554-556 | The output trimmed and split on the bar separator with empty parts skipped: no part is empty (what the parts are is stated by `PlanReachesConsole` and `NoPlanNoParts`) |
| Window.CommandListRoundTrip | Cute/window.cpp:516-537 | Decoding `format_commands` of any command list gives the list back |
| Window.OnTrajectoryOutput | Cute/window.cpp:549-567 | With fewer than three parts nothing changes. Otherwise the map is loaded from part 0, and the commands decoded from part 1 are all sent as trajectory frames carrying their count |
| Window.SendCommands | Cute/window.cpp:565-567 | Sends every command decoded from the text, in order |
| Window.PlanReachesConsole | Cute/trajectory.py:186-193 | For a planned trajectory, the console's parts are the printed matrix, commands and size; they read back as exactly that matrix and those commands |
| Window.NoPlanNoParts | Cute/trajectory.py:43-51 | With no robot, no destination or no path, the console finds fewer than three parts |

## Left out

- Sockets, threads and the busy-poll are left out. The outcome of select/accept, connect, write and close is a parameter (except a write on the console's never-connected socket, which Linux fails with EPIPE), and so is whether a read finds the peer gone; how many bytes a body read returns is not (see `Mailbox.ReadMsg` below). The two threads of each program are not interleaved: messages posted by other threads are separate method calls.
- The POSIX queue is an unbounded sequence. Its capacity of 10 only blocks the sender, and `mq_send`/`mq_receive` failures are not modelled.
- `CartoPostman.Postman.ActionSend`: short writes and the retry that writes `sizeof` a pointer are not modelled. A write sends all the bytes, fails with a broken pipe, or fails otherwise.
- `CartoPostman.SendAction`: the `errno` test after a successful write, which may see a stale EPIPE, is not modelled. EPIPE is reported only when the write itself fails.
- `CutePostman.SendAction`: the same stale-`errno` test after a successful write (postman.cpp:410), and the short-write retry of `sizeof` a pointer, are not modelled. A send before the first connect posts DISCONNECTION only under the SIGPIPE assumption below; without it the console would be killed.
- `CutePostman.Postman.ActionSend`: short writes and the `sizeof` retry are not modelled, as for `CutePostman.SendAction`; the write runs in the caller's thread.
- `WriteBrokenPipe`: neither program ignores SIGPIPE, so on Linux a write to a closed peer would kill the process instead of returning -1 with EPIPE. The model assumes SIGPIPE is ignored, and every broken-pipe path rests on that.
- `CartoPostman.RecoversFromBrokenPipe`: holds only under the SIGPIPE assumption above. `errno` is never reset in the postman thread, so the first successful write to the next client may post DISCONNECTION again; the scenario does not include that.
- `Mailbox.ReadMsg`: a read that returns exactly one size byte is excluded by precondition. The over-long `memcpy` of the read buffer is not replicated. The body read always returns everything the stream still holds up to the announced size: a TCP read that returns fewer bytes while the rest is still in transit, which would desynchronise every later frame, is not modelled, and `Mailbox.ReassemblesFrames` rests on that.
- The inverted close guards in `POSTMAN_stop` and the joins of the threads are not modelled. Stopping posts STOP.
- `CartoDispatcher.Loop`: the model does not follow the program into undefined behaviour. The run ends with the outcome `Undefined`, and nothing is claimed after it, at the first of: a message whose payload is longer than MAX_RECEIVED_BYTES (20), which would be copied past the end of the 20-byte `data_received` buffer (Carto/src/com/dispatcher.c:142 and 268); a SEND_MOVES_TRAJECTORY frame arriving while `count_command` is 50, which would write `list_commands[50]` past the end of the 50-entry array (dispatcher.c:133, 219 and 223; see `LongTrajectoryOverflows`); and a read that returns a single size byte (see `Mailbox.ReadMsg`).
- `CuteDispatcher.Loop`: likewise, a payload longer than MAX_RECEIVED_BYTES (20) overflows `data_received` (Cute/client_tcp/dispatcher.cpp:125 and 259), and a read may return a single size byte. The run ends there with the outcome `Undefined`, and nothing is claimed about what happens after it.
- `CartoDispatcher.Dispatcher.constructor`: what malloc returned for `data_received` is a parameter. `robot_position_base`, which the robot never allocates, is modelled as an ordinary pose.
- The dispatcher mutex and the pilot mutex are not modelled.
- Motor and ultrasound hardware (`motor.c`, `ultrasound.c`) are left out: motor commands are a trace, and the obstacle check is a boolean input.
- `starter.c` (the key loop), `defs.cpp` (`printHex`), the Qt GUI, signals, `customgraphicsview.cpp` and `main.cpp` are not part of this model.
- The unused `ajout_*` helpers of `map.cpp` are not modelled.
- The planner's process plumbing is left out:
  - argument handling, the quote stripping and `eval` of `trajectory.py`, and the QProcess launch;
  - `eval` of the console's `[...]` text is modelled by the same nested-list parser, with `[` and `]` as brackets.
- `Trajectory.AStar`: optimality of the path is not claimed. The search runs for at most `fuel` iterations and otherwise reports that it did not finish, so termination of the Python loop is not proved.
- The host is little-endian throughout: `htons`/`ntohs` swap the bytes, and the console copies the low two bytes of the enum first.
- Trimming recognises ASCII whitespace only, not Unicode spaces.
- `Text.NestedRoundTrip`: the round trip needs every number to fit in 32 bits, because `toInt` returns 0 otherwise.
- `Window.OnTrajectoryOutput`: chunked `readyRead` output is not modelled; each call sees the whole output. With fewer than three parts the handler would index out of range; the model changes nothing then.
- `GenerateCommands.Generate`: the script inserts the robot's cell into the caller's list. The model returns the commands and leaves the caller's path alone, as `make_trajectory` never reads the list again.
- `CuteProxyPilot.SendMoveCartography`: the command byte that the source copies past the end of its 4-byte buffer is undefined behaviour; the model drops it and sends the four header bytes.
- `GenerateCommands.FixtureOne`: stated for the path that the fixture's expected matrix marks; A* is not evaluated on the fixture matrix.
- `GenerateCommands.FixtureTwo`: likewise stated for the path its expected matrix marks.
- `GenerateCommands.FixtureThree`: likewise stated for the path its expected matrix marks.
- `Trajectory.MakeTrajectory`: the 2-tuple returned for a missing endpoint or no path, and the unpacking error it causes in the main block, are modelled by the plan outcomes and `Trajectory.Printed`.

## Findings

| source | as written | input that shows it | evidently intended | confidence | as-written member | corrected member |
|---|---|---|---|---|---|---|
| Exe/generate_commands.py:25-26 | a path of fewer than two cells yields no command, and the robot's cell is inserted only after this guard | robot at (0,0), destination (0,1): A* returns [(0,1)] and no command is generated | one FRONT (the robot faces EST) | not executed | GenerateCommands.OneStepPathIsDropped | GenerateCommands.WalkDrives |
| Exe/generate_commands.py:58-68 | a needed heading that is neither the current one nor its clockwise neighbour gives [LEFT] and the anticlockwise neighbour, even for a reversal | robot at (5,5) facing EST, path [(5,4),(5,3)]: the robot turns to NORD first and ends at (4,4) | two turns that face the needed heading | not executed | GenerateCommands.WestFirstGoesAstray | GenerateCommands.Turn |
| Cute/client_tcp/proxyPilot.cpp:70-80 | a 4-byte buffer with size 2, and the command written at offset 4, past its end | any command: the robot decodes SEND_MOVE_CARTOGRAPHY with no payload, so the dispatcher acts on whatever byte an earlier frame left in `data_received` | size 3 with the command byte as payload | not executed | Codec.MoveCartographyLosesCommand | Codec.MoveCartographyDeliversCommand |
