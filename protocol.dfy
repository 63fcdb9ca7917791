/*
 * Types shared by the robot controller (Carto) and the operator console
 * (Cute): motion commands, message types, headings and positions, with the
 * numeric codes both endpoints put on the wire.
 */
module Protocol {

  /** One octet, as carried on the TCP stream. */
  type Byte = b: int | 0 <= b < 256

  datatype Option<T> = None | Some(value: T)

  /** errno value that the postmen store in their one-byte error buffer (Linux EBADF). */
  const EBADF: Byte := 9

  /** Motion primitives; a packed one-byte enum on the robot. */
  datatype Command = Forward | Right | Left | Stop

  function CommandCode(c: Command): (b: Byte)
    ensures b <= 3
    ensures CommandOfCode(b) == Some(c)
  {
    match c
    case Forward => 0
    case Right => 1
    case Left => 2
    case Stop => 3
  }

  /** The enum value a byte denotes, if any. */
  function CommandOfCode(b: int): (c: Option<Command>)
    ensures c.Some? <==> 0 <= b <= 3
  {
    if b == 0 then Some(Forward)
    else if b == 1 then Some(Right)
    else if b == 2 then Some(Left)
    else if b == 3 then Some(Stop)
    else None
  }

  /** Kinds of frame; the 16-bit values are the enum values of both endpoints. */
  datatype MessageType =
    | SendMovesTrajectory
    | SendMoveCartography
    | MoveDone
    | SetObstaclePosition
    | SetRobotPosition
    | StopRobot
    | SendRobotPosition
    | RobotPositionReceived

  /** The high byte of a type's value; every low byte is zero. */
  function TypeTag(t: MessageType): (b: Byte)
    ensures 1 <= b <= 8
  {
    match t
    case SendMovesTrajectory => 0x01
    case SendMoveCartography => 0x02
    case MoveDone => 0x03
    case SetObstaclePosition => 0x04
    case SetRobotPosition => 0x05
    case StopRobot => 0x06
    case SendRobotPosition => 0x07
    case RobotPositionReceived => 0x08
  }

  /** The 16-bit value of a message type, 0x0100 to 0x0800. */
  function TypeCode(t: MessageType): (v: int)
    ensures 0x0100 <= v <= 0x0800 && v % 0x100 == 0
    ensures TypeOfCode(v) == Some(t)
  {
    TypeTag(t) * 0x100
  }

  /** The message type a 16-bit value denotes on the robot side (switch over the enum). */
  function TypeOfCode(v: int): (t: Option<MessageType>)
    ensures t.Some? <==> (0x0100 <= v <= 0x0800 && v % 0x100 == 0)
  {
    if v == 0x0100 then Some(SendMovesTrajectory)
    else if v == 0x0200 then Some(SendMoveCartography)
    else if v == 0x0300 then Some(MoveDone)
    else if v == 0x0400 then Some(SetObstaclePosition)
    else if v == 0x0500 then Some(SetRobotPosition)
    else if v == 0x0600 then Some(StopRobot)
    else if v == 0x0700 then Some(SendRobotPosition)
    else if v == 0x0800 then Some(RobotPositionReceived)
    else None
  }

  /** Headings of the robot on the grid: SOUTH is +x, NORTH -x, WEST -y, EAST +y. */
  datatype Direction = South | North | West | East

  function DirectionCode(d: Direction): (b: Byte)
    ensures b <= 3
    ensures DirectionOfCode(b) == Some(d)
  {
    match d
    case South => 0
    case North => 1
    case West => 2
    case East => 3
  }

  function DirectionOfCode(b: int): (d: Option<Direction>)
    ensures d.Some? <==> 0 <= b <= 3
  {
    if b == 0 then Some(South)
    else if b == 1 then Some(North)
    else if b == 2 then Some(West)
    else if b == 3 then Some(East)
    else None
  }

  /**
   * Robot pose. The heading is kept as the raw one-byte enum value, because
   * the robot builds it by casting a received byte, so values above 3 occur.
   */
  datatype Position = Position(dir: Byte, x: int, y: int)

  /** Distinct message types have distinct codes, so the type field identifies the kind. */
  lemma TypeCodeInjective(s: MessageType, t: MessageType)
    ensures TypeCode(s) == TypeCode(t) <==> s == t
  {
    assert TypeOfCode(TypeCode(s)) == Some(s);
    assert TypeOfCode(TypeCode(t)) == Some(t);
  }

  /** Four pieces joined left to right are the first joined to the other three. */
  lemma Regroup<T>(a: seq<T>, b: seq<T>, c: seq<T>, d: seq<T>)
    ensures a + b + c + d == a + (b + c + d)
  {
  }

  /** Five pieces joined left to right are the first joined to the second joined to the other three. */
  lemma Regroup5<T>(a: seq<T>, b: seq<T>, c: seq<T>, d: seq<T>, e: seq<T>)
    ensures a + b + c + d + e == a + (b + (c + d + e))
  {
  }
}
