/*
 * The robot's dispatcher (Carto/src/com/dispatcher.c): a thread that, while
 * its state is S_READING_MSG, reads one frame through the postman, decodes
 * its header into the 20-byte buffer data_received and turns it into an
 * order for the pilot. Trajectories arrive one command per frame and are
 * collected in the 50-slot list_commands until the announced number of
 * commands is reached.
 *
 * The pure functions give the meaning of one iteration on an abstract view
 * (World) of everything the iteration touches: the postman, the dispatcher's
 * buffers and the pilot. Class Dispatcher is proved to follow them.
 */
module CartoDispatcher {
  import opened Protocol
  import opened Codec
  import opened Mailbox
  import opened ReaderState
  import CartoPostman
  import Proxies = CartoProxies
  import opened CartoPilot

  /** MAX_RECEIVED_BYTES. */
  const MaxReceivedBytes := 20

  /** The number of slots of list_commands. */
  const ListCapacity := 50

  // ------------------------------------------------------------ decoding

  /** A frame decode_message can handle: all announced bytes present, and a payload that fits data_received. */
  predicate Fits(raw: seq<Byte>)
  {
    CartoDecodable(raw) && (CartoDecode(raw).payload.Some? ==> |CartoDecode(raw).payload.value| <= MaxReceivedBytes)
  }

  /** data_received after decode_message: the payload over the first bytes, the rest left from earlier frames. */
  function Received(data: seq<Byte>, payload: Option<seq<Byte>>): (r: seq<Byte>)
    requires payload.Some? ==> |payload.value| <= |data|
    ensures |r| == |data|
    ensures payload.Some? ==> r[..|payload.value|] == payload.value
    ensures payload.Some? ==> r[|payload.value|..] == data[|payload.value|..]
    ensures payload.None? ==> r == data
  {
    if payload.Some? then payload.value + data[|payload.value|..] else data
  }

  /** What a decoded frame asks of the pilot. */
  datatype Order =
    | Trajectory(count: Byte, code: Byte)   // one command of a trajectory of `count` commands
    | Cartography(cmd: Command)             // one cartography move
    | Halt                                  // stop the robot
    | Locate(pos: Position)                 // the robot's pose
    | NoOrder

  /**
   * dispatch_received_msg's reading of a frame: the kind selects the order,
   * whose arguments come from data_received. Only the codes of FORWARD, RIGHT
   * and LEFT make a cartography move.
   */
  function OrderOf(h: CartoHead, data: seq<Byte>): (o: Order)
    requires |data| == MaxReceivedBytes
    ensures o.Cartography? ==> o.cmd != Command.Stop && data[0] == CommandCode(o.cmd)
    ensures o.Trajectory? ==> o == Trajectory(data[0], data[1])
    ensures o.Locate? ==> o.pos == Position(data[2], data[0], data[1])
    ensures o == NoOrder <==>
      (TypeOfCode(h.typeValue) !in {Some(SendMovesTrajectory), Some(SendMoveCartography), Some(StopRobot), Some(SendRobotPosition)}
       || (TypeOfCode(h.typeValue) == Some(SendMoveCartography) && data[0] > 2))
  {
    match TypeOfCode(h.typeValue)
    case Some(SendMovesTrajectory) => Trajectory(data[0], data[1])
    case Some(SendMoveCartography) => MoveOrder(data[0])
    case Some(StopRobot) => Halt
    case Some(SendRobotPosition) => Locate(Position(data[2], data[0], data[1]))
    case _ => NoOrder
  }

  /** The move a SEND_MOVE_CARTOGRAPHY code asks for: 0 FORWARD, 1 RIGHT, 2 LEFT, anything else none. */
  function MoveOrder(code: Byte): Order
  {
    if code == 0 then Cartography(Forward)
    else if code == 1 then Cartography(Right)
    else if code == 2 then Cartography(Left)
    else NoOrder
  }

  // ------------------------------------------------------------ trajectories

  /** list_commands and count_command. */
  datatype Acc = Acc(count: int, list: seq<Byte>)

  /** The accumulator after one trajectory frame, and whether the list went to the pilot. */
  datatype Collected = Collected(acc: Acc, delivered: bool)

  /**
   * One trajectory frame [n, c]: c goes to slot count_command; while that is
   * below n - 1 the counter advances, otherwise the list goes to the pilot
   * and the counter restarts.
   */
  function Collect(acc: Acc, n: Byte, c: Byte): (r: Collected)
    requires 0 <= acc.count < |acc.list|
    ensures |r.acc.list| == |acc.list|
  {
    var list := acc.list[acc.count := c];
    if acc.count < n - 1 then Collected(Acc(acc.count + 1, list), false)
    else Collected(Acc(0, list), true)
  }

  /** The accumulator after a run of frames announcing the same count, and the lists handed to the pilot. */
  datatype Fed = Fed(acc: Acc, deliveries: seq<seq<Byte>>)

  function Feed(acc: Acc, n: Byte, cs: seq<Byte>): (r: Fed)
    requires 0 <= acc.count < |acc.list|
    requires n <= |acc.list| || acc.count + |cs| < |acc.list|
    ensures |r.acc.list| == |acc.list| && 0 <= r.acc.count < |acc.list| && r.acc.count <= acc.count + |cs|
    decreases |cs|
  {
    if |cs| == 0 then Fed(acc, [])
    else
      var f := Feed(acc, n, cs[..|cs| - 1]);
      var col := Collect(f.acc, n, cs[|cs| - 1]);
      Fed(col.acc, f.deliveries + if col.delivered then [col.acc.list[..n]] else [])
  }

  /** Before the last of its frames, a trajectory has stored its commands so far and handed nothing on. */
  lemma {:induction false} FeedPrefix(list: seq<Byte>, n: Byte, cs: seq<Byte>, k: nat)
    requires k <= |cs| && k < n && k < |list|
    ensures var f := Feed(Acc(0, list), n, cs[..k]);
      f.acc.count == k && f.deliveries == [] && f.acc.list[..k] == cs[..k]
  {
    if k > 0 {
      FeedPrefix(list, n, cs, k - 1);
      assert cs[..k][..k - 1] == cs[..k - 1];
      var f := Feed(Acc(0, list), n, cs[..k - 1]);
      var l := f.acc.list[k - 1 := cs[k - 1]];
      assert l[..k] == f.acc.list[..k - 1] + [cs[k - 1]];
      assert cs[..k] == cs[..k - 1] + [cs[k - 1]];
    }
  }

  /**
   * Reassembly: n consecutive frames of a trajectory of n commands (1 to 50)
   * hand the n commands to the pilot exactly once, after the last frame and
   * in arrival order, and leave the counter at 0 for the next trajectory.
   */
  lemma TrajectoryReassembly(list: seq<Byte>, n: Byte, cs: seq<Byte>)
    requires 1 <= n <= |list| && |cs| == n
    ensures Feed(Acc(0, list), n, cs) == Fed(Feed(Acc(0, list), n, cs).acc, [cs])
    ensures Feed(Acc(0, list), n, cs).acc.count == 0
  {
    FeedPrefix(list, n, cs, n - 1);
    assert cs[..n] == cs;
    var f := Feed(Acc(0, list), n, cs[..n - 1]);
    var l := f.acc.list[n - 1 := cs[n - 1]];
    assert l[..n] == f.acc.list[..n - 1] + [cs[n - 1]];
    assert cs == cs[..n - 1] + [cs[n - 1]];
  }

  /**
   * A trajectory announcing more than 50 commands makes count_command reach
   * 50, so its 51st frame would write past list_commands.
   */
  lemma LongTrajectoryOverflows(list: seq<Byte>, n: Byte, cs: seq<Byte>)
    requires |list| == ListCapacity && ListCapacity < n && |cs| == ListCapacity - 1
    ensures Collect(Feed(Acc(0, list), n, cs).acc, n, 0).acc.count == ListCapacity
  {
    var k := ListCapacity - 1;
    var cs' := cs + seq(n - |cs|, i => 0);
    assert cs'[..k] == cs;
    FeedPrefix(list, n, cs', k);
  }

  // ------------------------------------------------------------ reacting

  /** The pilot's state with the trajectory accumulator. */
  datatype Robot = Robot(pilot: PilotView, acc: Acc)

  /** The robot after an order, and the frames posted meanwhile. */
  datatype Reaction = Reaction(robot: Robot, frames: seq<seq<Byte>>)

  predicate RobotOk(r: Robot)
  {
    |r.acc.list| == ListCapacity && 0 <= r.acc.count <= ListCapacity
  }

  /** The order can be carried out without writing past list_commands. */
  predicate OrderSafe(r: Robot, o: Order)
  {
    o.Trajectory? ==> r.acc.count < ListCapacity
  }

  /** What the pilot does for an order. */
  function Obey(r: Robot, o: Order, obstacle: bool): (re: Reaction)
    requires RobotOk(r) && OrderSafe(r, o)
    ensures RobotOk(re.robot)
    ensures !o.Trajectory? ==> re.robot.acc == r.acc
    ensures o.Trajectory? || o == NoOrder || o == Halt ==> |re.frames| == 0
  {
    match o
    case Trajectory(n, c) =>
      var col := Collect(r.acc, n, c);
      var pv := if col.delivered then MovesTrajectory(r.pilot, col.acc.list, n) else r.pilot;
      Reaction(Robot(pv, col.acc), [])
    case Cartography(cmd) =>
      var e := MoveCartography(r.pilot, cmd, obstacle);
      Reaction(r.(pilot := e.view), e.frames)
    case Halt => Reaction(r.(pilot := Halted(r.pilot)), [])
    case Locate(p) =>
      var e := SetPose(r.pilot, p);
      Reaction(r.(pilot := e.view), e.frames)
    case NoOrder => Reaction(r, [])
  }

  // ------------------------------------------------------------ the loop

  /** Everything one iteration of the dispatcher's loop touches. */
  datatype World = World(conn: CartoPostman.Conn, data: seq<Byte>, robot: Robot)

  predicate WorldOk(w: World)
  {
    |w.data| == MaxReceivedBytes && RobotOk(w.robot)
  }

  /**
   * The next iteration has defined behaviour: the read does not stop after
   * one size byte, and a frame it returns can be decoded and obeyed without
   * writing past data_received or list_commands.
   */
  predicate StepSafe(w: World, fault: ReadFault)
    requires WorldOk(w)
  {
    w.conn.reader == ReadingMsg ==>
      && Readable(w.conn.inbound, w.conn.socketOpen, fault)
      && var st := ReadMsg(w.conn.inbound, w.conn.socketOpen, fault);
         (st.result.Buffer? && st.result.bytes[0] != EBADF ==>
            && Fits(st.result.bytes)
            && OrderSafe(w.robot, OrderOf(CartoDecode(st.result.bytes), Received(w.data, CartoDecode(st.result.bytes).payload))))
  }

  /**
   * One iteration of run: nothing happens unless the state is
   * S_READING_MSG; then one read, after which a NULL buffer is dropped, the
   * error buffer makes the dispatcher wait for a reconnection, and anything
   * else is decoded and obeyed.
   */
  function RunStep(w: World, fault: ReadFault, obstacle: bool): (r: World)
    requires WorldOk(w) && StepSafe(w, fault)
    ensures WorldOk(r)
    ensures r.conn.wire == w.conn.wire && r.conn.state == w.conn.state && r.conn.socketOpen == w.conn.socketOpen
    ensures w.conn.reader != ReadingMsg ==> r == w
  {
    if w.conn.reader != ReadingMsg then w
    else
      var st := ReadMsg(w.conn.inbound, w.conn.socketOpen, fault);
      var c := CartoPostman.AfterRead(w.conn, st);
      match st.result
      case NullBuffer => w.(conn := c)
      case Buffer(b) =>
        if b[0] == EBADF then w.(conn := c.(reader := WaitingReconnection))
        else
          var h := CartoDecode(b);
          var data := Received(w.data, h.payload);
          var re := Obey(w.robot, OrderOf(h, data), obstacle);
          World(c.(mailbox := c.mailbox + Proxies.Requests(re.frames)), data, re.robot)
  }

  /** One loop input: the read fault, and what the ultrasound sensor sees. */
  datatype Tick = Tick(fault: ReadFault, obstacle: bool)

  /** How run ends, or why the model stops following it. */
  datatype RunEnd =
    | Stopped       // the state was S_STOP: the thread returns
    | Undefined     // the next iteration would read or write out of bounds
    | OutOfInputs   // no more ticks were supplied

  datatype RunResult = RunResult(world: World, end: RunEnd)

  /** The loop of run, one tick per iteration. */
  function Loop(w: World, ticks: seq<Tick>): (r: RunResult)
    requires WorldOk(w)
    ensures WorldOk(r.world)
    ensures r.end == Stopped <==> r.world.conn.reader == DState.Stop
    ensures r.world.conn.wire == w.conn.wire
    decreases |ticks|
  {
    if w.conn.reader == DState.Stop then RunResult(w, Stopped)
    else if |ticks| == 0 then RunResult(w, OutOfInputs)
    else if !StepSafe(w, ticks[0].fault) then RunResult(w, Undefined)
    else Loop(RunStep(w, ticks[0].fault, ticks[0].obstacle), ticks[1..])
  }

  // ------------------------------------------------------------ guarantees

  /** The socket is read only in S_READING_MSG. */
  lemma ReadsOnlyWhenReading(w: World, fault: ReadFault, obstacle: bool)
    requires WorldOk(w) && w.conn.reader != ReadingMsg
    ensures StepSafe(w, fault)
    ensures RunStep(w, fault, obstacle).conn.inbound == w.conn.inbound
  {
  }

  /** A closed socket yields the error buffer, which only makes the dispatcher wait. */
  lemma ClosedSocketMeansWait(w: World, fault: ReadFault, obstacle: bool)
    requires WorldOk(w) && w.conn.reader == ReadingMsg && !w.conn.socketOpen
    ensures StepSafe(w, fault)
    ensures RunStep(w, fault, obstacle) == w.(conn := w.conn.(reader := WaitingReconnection))
  {
  }

  /**
   * The error buffer is recognised by its first byte alone: a frame whose
   * size field starts with 0x09 is taken for it, consumed and never obeyed.
   */
  lemma FrameTakenForError(w: World, f: seq<Byte>, rest: seq<Byte>, obstacle: bool)
    requires WorldOk(w) && w.conn.reader == ReadingMsg && w.conn.socketOpen
    requires WellFormed(f) && f[0] == EBADF && w.conn.inbound == f + rest
    ensures StepSafe(w, NoFault)
    ensures RunStep(w, NoFault, obstacle) == w.(conn := w.conn.(inbound := rest, reader := WaitingReconnection))
  {
    ReadsWholeFrame(f, rest);
  }

  /** A frame at the head of the stream is decoded and obeyed, and only it is consumed. */
  lemma ObeysFrame(w: World, f: seq<Byte>, rest: seq<Byte>, obstacle: bool)
    requires WorldOk(w) && w.conn.reader == ReadingMsg && w.conn.socketOpen
    requires WellFormed(f) && f[0] != EBADF && w.conn.inbound == f + rest && Fits(f)
    requires OrderSafe(w.robot, OrderOf(CartoDecode(f), Received(w.data, CartoDecode(f).payload)))
    ensures StepSafe(w, NoFault)
    ensures var data := Received(w.data, CartoDecode(f).payload);
      var re := Obey(w.robot, OrderOf(CartoDecode(f), data), obstacle);
      RunStep(w, NoFault, obstacle) ==
        World(w.conn.(inbound := rest, mailbox := w.conn.mailbox + Proxies.Requests(re.frames)), data, re.robot)
  {
    ReadsWholeFrame(f, rest);
  }

  /** A stopped dispatcher does nothing more. */
  lemma StopIsFinal(w: World, ticks: seq<Tick>)
    requires WorldOk(w) && w.conn.reader == DState.Stop
    ensures Loop(w, ticks) == RunResult(w, Stopped)
  {
  }

  // ------------------------------------------------------------ the object

  class Dispatcher {
    const dataReceived: array<Byte>
    const listCommands: array<Byte>
    var countCommand: int
    const gate: Gate
    const pilot: Pilot
    const postman: CartoPostman.Postman

    /** The buffers have their sizes, and the postman and pilot share this dispatcher's state. */
    predicate Valid()
      reads this, pilot, postman
    {
      && dataReceived.Length == MaxReceivedBytes && listCommands.Length == ListCapacity
      && dataReceived != listCommands
      && 0 <= countCommand <= ListCapacity
      && pilot.postman == postman && postman.gate == gate
    }

    function RobotView(): Robot
      reads this, listCommands, pilot
    {
      Robot(pilot.View(), Acc(countCommand, listCommands[..]))
    }

    function WorldView(): World
      reads this, dataReceived, listCommands, pilot, postman, postman.gate
    {
      World(postman.Abs(), dataReceived[..], RobotView())
    }

    /**
     * DISPATCHER_create and the static initialisation: data_received holds
     * whatever malloc returned (`garbage`), list_commands is zeroed.
     */
    constructor (gate: Gate, pilot: Pilot, postman: CartoPostman.Postman, garbage: seq<Byte>)
      requires |garbage| == MaxReceivedBytes && pilot.postman == postman && postman.gate == gate
      ensures Valid()
      ensures this.gate == gate && this.pilot == pilot && this.postman == postman
      ensures dataReceived[..] == garbage && listCommands[..] == seq(ListCapacity, i => 0) && countCommand == 0
      ensures fresh(dataReceived) && fresh(listCommands)
    {
      this.gate := gate;
      this.pilot := pilot;
      this.postman := postman;
      dataReceived := new Byte[MaxReceivedBytes](i requires 0 <= i < MaxReceivedBytes => garbage[i]);
      listCommands := new Byte[ListCapacity](i => 0);
      countCommand := 0;
    }

    /** DISPATCHER_start: idle, and the pilot's gate open (the thread creation is not modelled). */
    method Start()
      modifies gate, pilot
      ensures gate.state == Idle && pilot.View() == old(pilot.View()).(canSetCommand := true)
    {
      gate.Start();
      pilot.Create();
    }

    /** decode_message. */
    method Decode(raw: seq<Byte>) returns (h: CartoHead)
      requires Valid() && Fits(raw)
      modifies dataReceived
      ensures h == CartoDecode(raw)
      ensures dataReceived[..] == Received(old(dataReceived[..]), h.payload)
    {
      var size := Int16(Be16(raw[0], raw[1]));
      h := CartoHead(size, Value(Swap(Word(raw[2], raw[3]))), if size > 2 then Some(raw[4..size + 2]) else None);
      if size > 2 {
        forall i | 0 <= i < size - 2 {
          dataReceived[i] := raw[4 + i];
        }
        assert dataReceived[..] == raw[4..size + 2] + old(dataReceived[..])[size - 2..];
      }
    }

    /** dispatch_received_msg, given what decode_message left in data_received. */
    method Dispatch(h: CartoHead, obstacle: bool)
      requires Valid() && OrderSafe(RobotView(), OrderOf(h, dataReceived[..]))
      modifies this, listCommands, pilot, postman
      ensures Valid()
      ensures var re := Obey(old(RobotView()), OrderOf(h, dataReceived[..]), obstacle);
        RobotView() == re.robot &&
        postman.Abs() == old(postman.Abs()).(mailbox := old(postman.mailbox) + Proxies.Requests(re.frames))
    {
      match TypeOfCode(h.typeValue)
      case Some(SendMovesTrajectory) =>
        CollectCommand(dataReceived[0], dataReceived[1]);
      case Some(SendMoveCartography) =>
        MoveOn(dataReceived[0], obstacle);
      case Some(StopRobot) =>
        pilot.StopRobot();
      case Some(SendRobotPosition) =>
        pilot.SendRobotPosition(Position(dataReceived[2], dataReceived[0], dataReceived[1]));
      case _ =>
    }

    /** The SEND_MOVE_CARTOGRAPHY branch: the move the code names, if any. */
    method MoveOn(code: Byte, obstacle: bool)
      requires Valid()
      modifies pilot, postman
      ensures Valid()
      ensures var re := Obey(old(RobotView()), MoveOrder(code), obstacle);
        RobotView() == re.robot &&
        postman.Abs() == old(postman.Abs()).(mailbox := old(postman.mailbox) + Proxies.Requests(re.frames))
    {
      var order := MoveOrder(code);
      if order.Cartography? {
        pilot.SendMoveCartography(order.cmd, obstacle);
      }
    }

    /** The SEND_MOVES_TRAJECTORY branch: store one command, and hand the list on after the last one. */
    method CollectCommand(size: Byte, code: Byte)
      requires Valid() && countCommand < ListCapacity
      modifies this, listCommands, pilot
      ensures Valid()
      ensures var col := Collect(old(RobotView()).acc, size, code);
        RobotView() == Robot(if col.delivered then MovesTrajectory(old(pilot.View()), col.acc.list, size) else old(pilot.View()), col.acc)
      ensures postman.Abs() == old(postman.Abs())
    {
      listCommands[countCommand] := code;
      if countCommand < size - 1 {
        countCommand := countCommand + 1;
      } else {
        pilot.SendMovesTrajectory(listCommands, size);
        countCommand := 0;
      }
    }

    /** One iteration of run. */
    method Step(t: Tick)
      requires Valid() && StepSafe(WorldView(), t.fault)
      modifies this, dataReceived, listCommands, pilot, postman, gate
      ensures Valid()
      ensures WorldView() == RunStep(old(WorldView()), t.fault, t.obstacle)
    {
      if gate.state != ReadingMsg {
        return;
      }
      var raw := postman.ReadRequest(t.fault);
      if raw.Buffer? {
        if raw.bytes[0] == EBADF {
          gate.Disconnect();
        } else {
          var h := Decode(raw.bytes);
          Dispatch(h, t.obstacle);
        }
      }
    }

    /** run: iterate while the state is not S_STOP, one tick per iteration. */
    method Run(ticks: seq<Tick>) returns (end: RunEnd)
      requires Valid()
      modifies this, dataReceived, listCommands, pilot, postman, gate
      ensures Valid()
      ensures RunResult(WorldView(), end) == Loop(old(WorldView()), ticks)
    {
      var i := 0;
      while gate.state != DState.Stop
        invariant 0 <= i <= |ticks| && Valid()
        invariant Loop(WorldView(), ticks[i..]) == Loop(old(WorldView()), ticks)
        decreases |ticks| - i
      {
        if i == |ticks| {
          return OutOfInputs;
        }
        if !StepSafe(WorldView(), ticks[i].fault) {
          return Undefined;
        }
        Step(ticks[i]);
        assert ticks[i..][1..] == ticks[i + 1..];
        i := i + 1;
      }
      return Stopped;
    }
  }
}
