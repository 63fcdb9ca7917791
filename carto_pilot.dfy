/*
 * The robot's pilot (Carto/src/controller/pilot.c). It keeps the robot's
 * pose and a flag that lets trajectories reach the motors, drives the
 * motors, and reports each cartography move to the console.
 *
 * The motors are a trace of the command bytes given to MOTOR_set_command;
 * the ultrasound check is a boolean input. The pose is a field of the
 * object, which the code reaches through a pointer it never allocates.
 */
module CartoPilot {
  import opened Protocol
  import opened Codec
  import opened Mailbox
  import CartoPostman
  import Proxies = CartoProxies

  // ------------------------------------------------------------ headings

  /** The LEFT table. */
  function LeftOf(d: Direction): Direction
  {
    match d
    case South => East
    case North => West
    case West => South
    case East => North
  }

  /** The RIGHT table. */
  function RightOf(d: Direction): Direction
  {
    match d
    case South => West
    case North => East
    case West => North
    case East => South
  }

  /** The cell offset of a heading: SOUTH +x, NORTH -x, WEST -y, EAST +y. */
  function Offset(d: Direction): (o: (int, int))
    ensures o.0 * o.0 + o.1 * o.1 == 1
  {
    match d
    case South => (1, 0)
    case North => (-1, 0)
    case West => (0, -1)
    case East => (0, 1)
  }

  /**
   * The turn tables are quarter turns of the offsets: LEFT rotates
   * (dx, dy) to (-dy, dx) and RIGHT rotates it back, so RIGHT undoes LEFT,
   * four LEFTs restore the heading and two turns either way reverse it.
   */
  lemma TurnsAreQuarterTurns(d: Direction)
    ensures Offset(LeftOf(d)) == (-Offset(d).1, Offset(d).0)
    ensures Offset(RightOf(d)) == (Offset(d).1, -Offset(d).0)
    ensures RightOf(LeftOf(d)) == d && LeftOf(RightOf(d)) == d
    ensures LeftOf(LeftOf(LeftOf(LeftOf(d)))) == d
    ensures LeftOf(LeftOf(d)) == RightOf(RightOf(d)) && Offset(LeftOf(LeftOf(d))) == (-Offset(d).0, -Offset(d).1)
  {
  }

  /** A turn on the stored heading byte; a byte that names no heading is left as it is. */
  function TurnLeft(dir: Byte): (r: Byte)
    ensures DirectionOfCode(dir).Some? ==> r == DirectionCode(LeftOf(DirectionOfCode(dir).value))
    ensures DirectionOfCode(dir).None? ==> r == dir
  {
    match DirectionOfCode(dir)
    case Some(d) => DirectionCode(LeftOf(d))
    case None => dir
  }

  function TurnRight(dir: Byte): (r: Byte)
    ensures DirectionOfCode(dir).Some? ==> r == DirectionCode(RightOf(DirectionOfCode(dir).value))
    ensures DirectionOfCode(dir).None? ==> r == dir
  {
    match DirectionOfCode(dir)
    case Some(d) => DirectionCode(RightOf(d))
    case None => dir
  }

  /** On the stored byte too, RIGHT undoes LEFT and four LEFTs are no turn. */
  lemma TurnsOnBytes(dir: Byte)
    ensures TurnRight(TurnLeft(dir)) == dir && TurnLeft(TurnRight(dir)) == dir
    ensures TurnLeft(TurnLeft(TurnLeft(TurnLeft(dir)))) == dir
    ensures dir <= 3 <==> TurnLeft(dir) <= 3
  {
    match DirectionOfCode(dir)
    case Some(d) =>
      TurnsAreQuarterTurns(d);
      assert DirectionOfCode(DirectionCode(LeftOf(d))) == Some(LeftOf(d));
      assert DirectionOfCode(DirectionCode(RightOf(d))) == Some(RightOf(d));
      assert DirectionOfCode(DirectionCode(LeftOf(LeftOf(d)))) == Some(LeftOf(LeftOf(d)));
      assert DirectionOfCode(DirectionCode(LeftOf(LeftOf(LeftOf(d))))) == Some(LeftOf(LeftOf(LeftOf(d))));
    case None =>
  }

  /** The cell in front of the robot, when its heading byte names a heading. */
  function Ahead(p: Position): (cell: Option<(int, int)>)
    ensures cell.Some? <==> p.dir <= 3
    ensures cell.Some? ==> (cell.value.0 - p.x) * (cell.value.0 - p.x) + (cell.value.1 - p.y) * (cell.value.1 - p.y) == 1
  {
    match DirectionOfCode(p.dir)
    case Some(d) => Some((p.x + Offset(d).0, p.y + Offset(d).1))
    case None => None
  }

  // ------------------------------------------------------------ behaviour

  /** What the pilot holds: the pose, the trajectory gate and the commands given to the motors. */
  datatype PilotView = PilotView(pos: Position, canSetCommand: bool, motor: seq<Byte>)

  /** A pilot operation's new state and the frames it posts to the console, in order. */
  datatype Effect = Effect(view: PilotView, frames: seq<seq<Byte>>)

  /** PILOT_send_robot_position: store the pose and acknowledge it. */
  function SetPose(v: PilotView, p: Position): Effect
  {
    Effect(v.(pos := p), [PositionReceivedFrame()])
  }

  /**
   * PILOT_send_move_cartography. The pose is acknowledged first. FORWARD
   * with an obstacle ahead reports the obstacle's cell; without one it
   * drives and reports the cell ahead as the robot's, leaving the stored
   * coordinates as they were. LEFT and RIGHT drive and turn the stored
   * heading. MOVE_DONE comes last.
   */
  function MoveCartography(v: PilotView, cmd: Command, obstacle: bool): Effect
  {
    var ack := [PositionReceivedFrame()];
    var done := [MoveDoneFrame()];
    var ahead := Ahead(v.pos);
    match cmd
    case Forward =>
      if obstacle then
        Effect(v, ack + (if ahead.Some? then [ObstacleFrame(ahead.value.0, ahead.value.1)] else []) + done)
      else
        Effect(v.(motor := v.motor + [CommandCode(Forward)]),
               ack + (if ahead.Some? then [RobotCellFrame(ahead.value.0, ahead.value.1)] else []) + done)
    case Left => Effect(v.(pos := v.pos.(dir := TurnLeft(v.pos.dir)), motor := v.motor + [CommandCode(Left)]), ack + done)
    case Right => Effect(v.(pos := v.pos.(dir := TurnRight(v.pos.dir)), motor := v.motor + [CommandCode(Right)]), ack + done)
    case Stop => Effect(v, ack + done)
  }

  /**
   * PILOT_send_moves_trajectory: the first `size` commands reach the motors,
   * in order, if the gate is open; afterwards the gate is open.
   */
  function MovesTrajectory(v: PilotView, list: seq<Byte>, size: int): PilotView
    requires v.canSetCommand ==> size <= |list|
  {
    v.(motor := v.motor + (if v.canSetCommand && size > 0 then list[..size] else []), canSetCommand := true)
  }

  /** PILOT_stop_robot: close the gate, then stop the motors. */
  function Halted(v: PilotView): PilotView
  {
    v.(canSetCommand := false, motor := v.motor + [CommandCode(Stop)])
  }

  // ------------------------------------------------------------ guarantees

  /**
   * Every cartography move is reported between ROBOT_POSITION_RECEIVED and
   * MOVE_DONE, with at most one position report in between, and never
   * changes the stored coordinates or the gate.
   */
  lemma MoveIsBracketed(v: PilotView, cmd: Command, obstacle: bool)
    ensures var e := MoveCartography(v, cmd, obstacle);
      && 2 <= |e.frames| <= 3
      && e.frames[0] == PositionReceivedFrame() && e.frames[|e.frames| - 1] == MoveDoneFrame()
      && e.view.pos.x == v.pos.x && e.view.pos.y == v.pos.y
      && e.view.canSetCommand == v.canSetCommand
  {
  }

  /** Only the turns change the heading; FORWARD and STOP leave the whole pose alone. */
  lemma ForwardKeepsPose(v: PilotView, obstacle: bool)
    ensures MoveCartography(v, Forward, obstacle).view.pos == v.pos
    ensures MoveCartography(v, Stop, obstacle).view == v
  {
  }

  /**
   * FORWARD with an obstacle drives nothing and reports the cell ahead as an
   * obstacle; without one it drives forward once and reports that same cell
   * as the robot's position.
   */
  lemma ForwardReportsCellAhead(v: PilotView, x: int, y: int)
    requires Ahead(v.pos) == Some((x, y))
    ensures MoveCartography(v, Forward, true) == Effect(v, [PositionReceivedFrame(), ObstacleFrame(x, y), MoveDoneFrame()])
    ensures MoveCartography(v, Forward, false) ==
      Effect(v.(motor := v.motor + [CommandCode(Forward)]), [PositionReceivedFrame(), RobotCellFrame(x, y), MoveDoneFrame()])
  {
  }

  /**
   * The gate: after a stop, the next trajectory reaches no motor but opens
   * the gate again, so the one after it is driven in full.
   */
  lemma StopDropsNextTrajectory(v: PilotView, l1: seq<Byte>, n1: nat, l2: seq<Byte>, n2: nat)
    requires n2 <= |l2|
    ensures var s := Halted(v);
      && MovesTrajectory(s, l1, n1).motor == v.motor + [CommandCode(Stop)]
      && MovesTrajectory(MovesTrajectory(s, l1, n1), l2, n2).motor == v.motor + [CommandCode(Stop)] + l2[..n2]
  {
  }

  // ------------------------------------------------------------ the object

  class Pilot {
    var pos: Position
    var canSetCommand: bool
    var motor: seq<Byte>
    const postman: CartoPostman.Postman

    function View(): PilotView
      reads this
    {
      PilotView(pos, canSetCommand, motor)
    }

    /** The module's static state: the gate starts closed. */
    constructor (postman: CartoPostman.Postman, pos: Position)
      ensures this.postman == postman
      ensures View() == PilotView(pos, false, [])
    {
      this.postman := postman;
      this.pos := pos;
      canSetCommand := false;
      motor := [];
    }

    /** PILOT_create: open the gate (the motor and sensor set-up is not modelled). */
    method Create()
      modifies this
      ensures View() == old(View()).(canSetCommand := true)
    {
      canSetCommand := true;
    }

    method SendRobotPosition(p: Position)
      modifies this, postman
      ensures var e := SetPose(old(View()), p);
        View() == e.view && postman.Abs() == old(postman.Abs()).(mailbox := old(postman.mailbox) + Proxies.Requests(e.frames))
    {
      pos := p;
      Proxies.RobotPositionReceived(postman);
    }

    method SendMoveCartography(cmd: Command, obstacle: bool)
      modifies this, postman
      ensures var e := MoveCartography(old(View()), cmd, obstacle);
        View() == e.view && postman.Abs() == old(postman.Abs()).(mailbox := old(postman.mailbox) + Proxies.Requests(e.frames))
    {
      ghost var ack, done := [PositionReceivedFrame()], [MoveDoneFrame()];
      ghost var mb := postman.mailbox;
      SendRobotPosition(pos);
      ghost var report := Move(cmd, obstacle);
      Proxies.MoveDone(postman);
      Proxies.RequestsAppend3(mb, ack, report, done);
    }

    /** The move itself, between the acknowledgement and MOVE_DONE. */
    method Move(cmd: Command, obstacle: bool) returns (ghost report: seq<seq<Byte>>)
      modifies this, postman
      ensures var e := MoveCartography(old(View()), cmd, obstacle);
        View() == e.view && e.frames == [PositionReceivedFrame()] + report + [MoveDoneFrame()]
      ensures postman.Abs() == old(postman.Abs()).(mailbox := old(postman.mailbox) + Proxies.Requests(report))
    {
      report := [];
      if cmd == Forward {
        report := MoveForward(obstacle);
      } else if cmd == Left {
        motor := motor + [CommandCode(Left)];
        pos := pos.(dir := TurnLeft(pos.dir));
      } else if cmd == Right {
        motor := motor + [CommandCode(Right)];
        pos := pos.(dir := TurnRight(pos.dir));
      }
    }

    /** The FORWARD branch of a cartography move: report the cell ahead, and move unless it is blocked. */
    method MoveForward(obstacle: bool) returns (ghost report: seq<seq<Byte>>)
      modifies this, postman
      ensures var ahead := Ahead(pos);
        report == (if ahead.None? then []
                   else if obstacle then [ObstacleFrame(ahead.value.0, ahead.value.1)]
                   else [RobotCellFrame(ahead.value.0, ahead.value.1)])
      ensures pos == old(pos) && canSetCommand == old(canSetCommand)
      ensures motor == old(motor) + (if obstacle then [] else [CommandCode(Forward)])
      ensures postman.Abs() == old(postman.Abs()).(mailbox := old(postman.mailbox) + Proxies.Requests(report))
    {
      report := [];
      var ahead := Ahead(pos);
      if obstacle {
        if ahead.Some? {
          Proxies.SetObstaclePosition(postman, ahead.value.0, ahead.value.1);
          report := [ObstacleFrame(ahead.value.0, ahead.value.1)];
        }
      } else {
        motor := motor + [CommandCode(Forward)];
        if ahead.Some? {
          Proxies.SetRobotPosition(postman, ahead.value.0, ahead.value.1);
          report := [RobotCellFrame(ahead.value.0, ahead.value.1)];
        }
      }
    }

    method SendMovesTrajectory(list: array<Byte>, size: int)
      requires canSetCommand ==> size <= list.Length
      modifies this
      ensures View() == MovesTrajectory(old(View()), list[..], size)
    {
      var i := 0;
      while i < size
        invariant size > 0 ==> 0 <= i <= size
        invariant size <= 0 ==> i == 0
        invariant pos == old(pos) && canSetCommand == old(canSetCommand)
        invariant motor == old(motor) + (if canSetCommand then list[..i] else [])
      {
        if canSetCommand {
          assert list[..i + 1] == list[..i] + [list[i]];
          motor := motor + [list[i]];
        }
        i := i + 1;
      }
      canSetCommand := true;
    }

    method StopRobot()
      modifies this
      ensures View() == Halted(old(View()))
    {
      canSetCommand := false;
      motor := motor + [CommandCode(Stop)];
    }
  }
}
