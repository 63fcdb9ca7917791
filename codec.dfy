/*
 * Frame layout and byte order.
 *
 * A frame is [size hi, size lo, type byte, type byte, payload...] where
 * size = 2 + |payload|. Both endpoints run on a little-endian host: htons
 * and ntohs swap the two bytes of a 16-bit value, and a struct copied with
 * memcpy puts the low byte of each field first.
 *
 * The robot stores htons(type) in a 16-bit field, so its type bytes are
 * [hi, lo]; the console stores the raw value of an int-sized enum, so its
 * type bytes are [lo, hi]. Each side's decoder undoes the other side's
 * encoder, which is what the round-trip lemmas below establish.
 */
module Codec {
  import opened Protocol

  /** The low byte of a value: `v & 0xFF`, and a cast to uint8_t in two's complement. */
  function Lo(v: int): Byte
  {
    v % 0x100
  }

  /** A 16-bit value given by its high and low byte. */
  datatype Word = Word(hi: Byte, lo: Byte)

  /** `(hi << 8) | lo`. */
  function Value(w: Word): (v: int)
    ensures 0 <= v < 0x10000
  {
    w.hi * 0x100 + w.lo
  }

  /** `(b0 << 8) | b1` for two bytes read off the wire. */
  function Be16(b0: Byte, b1: Byte): (v: int)
    ensures 0 <= v < 0x10000
  {
    Value(Word(b0, b1))
  }

  /** htons / ntohs on a little-endian host: the two bytes change places. */
  function Swap(w: Word): (r: Word)
    ensures Value(r) == w.lo * 0x100 + w.hi
  {
    Word(w.lo, w.hi)
  }

  /** The two bytes a 16-bit field occupies in memory on a little-endian host: low byte first. */
  function Memory(w: Word): (m: seq<Byte>)
    ensures |m| == 2 && Be16(m[1], m[0]) == Value(w)
  {
    [w.lo, w.hi]
  }

  /** A field holding htons(v) lies in memory in network order, and ntohs undoes htons. */
  lemma HtonsImage(w: Word)
    ensures Memory(Swap(w)) == [w.hi, w.lo]
    ensures Swap(Swap(w)) == w
  {
  }

  /** The value of a type, as a pair of bytes. */
  function TypeWord(t: MessageType): (w: Word)
    ensures Value(w) == TypeCode(t)
  {
    Word(TypeTag(t), 0)
  }

  /** The size field of a frame shorter than 256 bytes: every frame of the protocol is. */
  function SizeWord(n: int): (w: Word)
    requires 0 <= n < 0x100
    ensures Value(w) == n
  {
    Word(0, n)
  }

  /** Conversion of a 16-bit pattern to int16_t (two's complement). */
  function Int16(v: int): (r: int)
    requires 0 <= v < 0x10000
    ensures -0x8000 <= r < 0x8000
    ensures (r - v) % 0x10000 == 0
  {
    if v < 0x8000 then v else v - 0x10000
  }

  /** Number of bytes a postman writes for a buffer: the size field plus the two size bytes. */
  function FrameLength(buf: seq<Byte>): int
    requires |buf| >= 2
  {
    Be16(buf[0], buf[1]) + 2
  }

  /** A complete frame: header present and the size field counts exactly the bytes after it. */
  predicate WellFormed(f: seq<Byte>)
  {
    |f| >= 4 && FrameLength(f) == |f|
  }

  // ---------------------------------------------------------------- robot side

  /**
   * A frame built by the robot: a Communication_Protocol_Head whose two
   * 16-bit fields hold htons(size) and htons(type), copied byte for byte,
   * followed by the payload.
   */
  function CartoFrame(t: MessageType, payload: seq<Byte>): (f: seq<Byte>)
    requires |payload| < 0x100 - 2
    ensures |f| == 4 + |payload| && f[4..] == payload
    ensures f[..4] == [0, 2 + |payload|, TypeTag(t), 0]
    ensures WellFormed(f)
  {
    Memory(Swap(SizeWord(2 + |payload|))) + Memory(Swap(TypeWord(t))) + payload
  }

  /** PROXYMAP_set_obstacle_position: the cell's coordinates truncated with `& 0xFF`. */
  function ObstacleFrame(x: int, y: int): (f: seq<Byte>)
    ensures f == [0x00, 0x04, 0x04, 0x00, x % 256, y % 256]
  {
    CartoFrame(SetObstaclePosition, [Lo(x), Lo(y)])
  }

  /** PROXYMAP_set_robot_position. */
  function RobotCellFrame(x: int, y: int): (f: seq<Byte>)
    ensures f == [0x00, 0x04, 0x05, 0x00, x % 256, y % 256]
  {
    CartoFrame(SetRobotPosition, [Lo(x), Lo(y)])
  }

  /** PROXYCARTOGRAPHY_robot_position_received: header only. */
  function PositionReceivedFrame(): (f: seq<Byte>)
    ensures f == [0x00, 0x02, 0x08, 0x00]
  {
    CartoFrame(RobotPositionReceived, [])
  }

  /** PROXYCARTOGRAPHY_move_done: header only. */
  function MoveDoneFrame(): (f: seq<Byte>)
    ensures f == [0x00, 0x02, 0x03, 0x00]
  {
    CartoFrame(MoveDone, [])
  }

  /** Header fields the robot's decode_message extracts, and the bytes it copies out. */
  datatype CartoHead = CartoHead(size: int, typeValue: int, payload: Option<seq<Byte>>)

  /** Enough bytes are present for decode_message to copy the payload it announces. */
  predicate CartoDecodable(raw: seq<Byte>)
  {
    |raw| >= 4 && |raw| >= FrameLength(raw)
  }

  /**
   * decode_message on the robot: the size is the big-endian value stored in
   * an int16_t, the type is ntohs of the big-endian value, and the payload
   * is copied only when the size exceeds 2.
   */
  function CartoDecode(raw: seq<Byte>): (h: CartoHead)
    requires CartoDecodable(raw)
    ensures h.payload.Some? <==> (0 <= h.size - 2 && 0 < h.size - 2 <= |raw| - 4)
    ensures h.payload.Some? ==> h.payload.value == raw[4..h.size + 2]
    ensures h.typeValue == Be16(raw[3], raw[2])
  {
    var size := Int16(Be16(raw[0], raw[1]));
    CartoHead(size, Value(Swap(Word(raw[2], raw[3]))), if size > 2 then Some(raw[4..size + 2]) else None)
  }

  // -------------------------------------------------------------- console side

  /**
   * A frame built by the console: htons(size) in an int16_t, then the first
   * two bytes of an int-sized enum value, i.e. the type's low byte first.
   */
  function CuteFrame(t: MessageType, size: int, payload: seq<Byte>): (f: seq<Byte>)
    requires 0 <= size < 0x100
    ensures |f| == 4 + |payload| && f[4..] == payload
    ensures f[..4] == [0, size, 0, TypeTag(t)]
  {
    Memory(Swap(SizeWord(size))) + Memory(TypeWord(t)) + payload
  }

  /** PROXYPILOT_stop_robot. */
  function StopRobotFrame(): (f: seq<Byte>)
    ensures f == [0x00, 0x02, 0x00, 0x06]
    ensures WellFormed(f)
  {
    CuteFrame(StopRobot, 2, [])
  }

  /** PROXYPILOT_send_robot_position: coordinates and heading cast to uint8_t. */
  function RobotPositionFrame(x: int, y: int, dir: int): (f: seq<Byte>)
    ensures f == [0x00, 0x05, 0x00, 0x07, x % 256, y % 256, dir % 256]
    ensures WellFormed(f)
  {
    CuteFrame(SendRobotPosition, 5, [Lo(x), Lo(y), Lo(dir)])
  }

  /**
   * PROXYPILOT_send_move_cartography as written: the buffer is allocated
   * for 2 + 2 bytes, so the command byte stored at offset 4 lies outside it
   * and the frame announces no payload.
   */
  function MoveCartographyFrameAsWritten(cmd: Command): (f: seq<Byte>)
    ensures f == [0x00, 0x02, 0x00, 0x02]
    ensures WellFormed(f)
  {
    CuteFrame(SendMoveCartography, 2, [])
  }

  /** The frame the console means to send for a single cartography move: one command byte. */
  function MoveCartographyFrame(cmd: Command): (f: seq<Byte>)
    ensures f == [0x00, 0x03, 0x00, 0x02, CommandCode(cmd)]
    ensures WellFormed(f)
  {
    CuteFrame(SendMoveCartography, 3, [CommandCode(cmd)])
  }

  /** One frame of PROXYPILOT_send_moves_trajectory: the list length and one command. */
  function TrajectoryFrame(count: int, cmd: Command): (f: seq<Byte>)
    ensures f == [0x00, 0x04, 0x00, 0x01, count % 256, CommandCode(cmd)]
    ensures WellFormed(f)
  {
    CuteFrame(SendMovesTrajectory, 4, [Lo(count), CommandCode(cmd)])
  }

  /** Header fields the console's decode_message extracts. */
  datatype CuteHead = CuteHead(size: int, msgType: Option<MessageType>, payload: Option<seq<Byte>>)

  /** The console recognises only the four kinds the robot sends (768, 2048, 1024, 1280). */
  function CuteTypeOf(v: int): (t: Option<MessageType>)
    ensures t.Some? ==> t.value in {MoveDone, RobotPositionReceived, SetObstaclePosition, SetRobotPosition}
    ensures t.Some? ==> TypeCode(t.value) == v
  {
    if v == 768 then Some(MoveDone)
    else if v == 2048 then Some(RobotPositionReceived)
    else if v == 1024 then Some(SetObstaclePosition)
    else if v == 1280 then Some(SetRobotPosition)
    else None
  }

  /** decode_message on the console: the type is read big-endian, without ntohs. */
  function CuteDecode(raw: seq<Byte>): (h: CuteHead)
    requires CartoDecodable(raw)
    ensures h.payload.Some? <==> (0 <= h.size - 2 && 0 < h.size - 2 <= |raw| - 4)
    ensures h.payload.Some? ==> h.payload.value == raw[4..h.size + 2]
    ensures h.msgType.Some? ==> TypeCode(h.msgType.value) == Be16(raw[2], raw[3])
  {
    var size := Int16(Be16(raw[0], raw[1]));
    CuteHead(size, CuteTypeOf(Be16(raw[2], raw[3])), if size > 2 then Some(raw[4..size + 2]) else None)
  }

  // ------------------------------------------------------------ round trips

  /** The payload field of a decoded header: absent exactly when there is none. */
  function PayloadOf(p: seq<Byte>): Option<seq<Byte>>
  {
    if |p| == 0 then None else Some(p)
  }

  /** Every frame the robot sends reaches the console with its kind, size and payload intact. */
  lemma RobotToConsole(t: MessageType, payload: seq<Byte>)
    requires t in {MoveDone, RobotPositionReceived, SetObstaclePosition, SetRobotPosition}
    requires |payload| < 0x100 - 2
    ensures CartoDecodable(CartoFrame(t, payload))
    ensures CuteDecode(CartoFrame(t, payload)) == CuteHead(2 + |payload|, Some(t), PayloadOf(payload))
  {
    var f := CartoFrame(t, payload);
    assert f[0] == 0 && f[1] == 2 + |payload| && f[2] == TypeTag(t) && f[3] == 0;
    assert Be16(f[2], f[3]) == TypeCode(t);
    assert f[4..2 + |payload| + 2] == payload;
  }

  /** The kinds the robot does not send are not recognised by the console. */
  lemma ConsoleIgnoresOtherKinds(t: MessageType)
    requires t !in {MoveDone, RobotPositionReceived, SetObstaclePosition, SetRobotPosition}
    ensures CuteTypeOf(TypeCode(t)) == None
  {
  }

  /** Every frame the console builds with a truthful size reaches the robot intact. */
  lemma ConsoleToRobot(t: MessageType, payload: seq<Byte>)
    requires |payload| < 0x100 - 2
    ensures WellFormed(CuteFrame(t, 2 + |payload|, payload))
    ensures CartoDecode(CuteFrame(t, 2 + |payload|, payload)) == CartoHead(2 + |payload|, TypeCode(t), PayloadOf(payload))
  {
    var f := CuteFrame(t, 2 + |payload|, payload);
    assert f[0] == 0 && f[1] == 2 + |payload| && f[2] == 0 && f[3] == TypeTag(t);
    assert f[4..2 + |payload| + 2] == payload;
  }

  /**
   * A size field of 0x8000 or more becomes negative in the int16_t, so no
   * payload is copied however many bytes follow.
   */
  lemma LargeSizeReadsNegative(raw: seq<Byte>)
    requires CartoDecodable(raw) && raw[0] >= 0x80
    ensures CartoDecode(raw).size < 0 && CartoDecode(raw).payload == None
    ensures CuteDecode(raw).size < 0 && CuteDecode(raw).payload == None
  {
  }

  /**
   * The one-byte error buffer (EBADF) and a frame are told apart by their
   * first byte only, so a frame whose size is 0x0900..0x09FF would be taken
   * for a disconnection; frames of at most 255 bytes never are.
   */
  lemma ErrorMarkerCollision(f: seq<Byte>)
    requires WellFormed(f)
    ensures f[0] == EBADF <==> 0x0900 + 2 <= |f| < 0x0A00 + 2
  {
  }

  /** The cartography frame as written carries no command, so the robot copies no payload. */
  lemma MoveCartographyLosesCommand(cmd: Command)
    ensures CartoDecode(MoveCartographyFrameAsWritten(cmd)) == CartoHead(2, TypeCode(SendMoveCartography), None)
    ensures MoveCartographyFrameAsWritten(cmd) == MoveCartographyFrameAsWritten(Forward)
  {
  }

  /** The intended cartography frame delivers exactly the command's code. */
  lemma MoveCartographyDeliversCommand(cmd: Command)
    ensures CartoDecode(MoveCartographyFrame(cmd)) == CartoHead(3, TypeCode(SendMoveCartography), Some([CommandCode(cmd)]))
  {
    ConsoleToRobot(SendMoveCartography, [CommandCode(cmd)]);
  }

  /** A trajectory frame delivers the list length (mod 256) and the command's code. */
  lemma TrajectoryFrameDelivers(count: int, cmd: Command)
    ensures CartoDecode(TrajectoryFrame(count, cmd)) == CartoHead(4, TypeCode(SendMovesTrajectory), Some([count % 256, CommandCode(cmd)]))
  {
    ConsoleToRobot(SendMovesTrajectory, [Lo(count), CommandCode(cmd)]);
  }

  /** A position frame delivers coordinates and heading, each truncated to a byte. */
  lemma RobotPositionFrameDelivers(x: int, y: int, dir: int)
    ensures CartoDecode(RobotPositionFrame(x, y, dir)) == CartoHead(5, TypeCode(SendRobotPosition), Some([x % 256, y % 256, dir % 256]))
  {
    ConsoleToRobot(SendRobotPosition, [Lo(x), Lo(y), Lo(dir)]);
  }

  /** An obstacle report reaches the console as the cell's truncated coordinates. */
  lemma ObstacleFrameDelivers(x: int, y: int)
    ensures CartoDecodable(ObstacleFrame(x, y))
    ensures CuteDecode(ObstacleFrame(x, y)) == CuteHead(4, Some(SetObstaclePosition), Some([x % 256, y % 256]))
  {
    RobotToConsole(SetObstaclePosition, [Lo(x), Lo(y)]);
  }
}
