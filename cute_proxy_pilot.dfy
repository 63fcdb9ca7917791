/*
 * The console's outgoing messages (Cute/client_tcp/proxyPilot.cpp): each
 * builds one frame, or one frame per command of a trajectory, and hands it
 * to POSTMAN_send_request, which writes it in the caller's thread. Each
 * write's outcome is a parameter (`w`, `ws`).
 */
module CuteProxyPilot {
  import opened Protocol
  import opened Codec
  import opened Mailbox
  import CutePostman

  /** One POSTMAN_send_request of frame `f` with write outcome `w`. */
  function SendOne(c: CutePostman.Conn, f: seq<Byte>, w: WriteOutcome): CutePostman.Conn
    requires Sendable(f)
  {
    CutePostman.SendAction(c.(mailbox := c.mailbox + [MqMsg(WriteRequest, f)]), f, w)
  }

  /** The frames `fs` sent one after the other, the i-th with outcome ws[i]. */
  function SendAll(c: CutePostman.Conn, fs: seq<seq<Byte>>, ws: seq<WriteOutcome>): CutePostman.Conn
    requires |ws| >= |fs| && forall i :: 0 <= i < |fs| ==> Sendable(fs[i])
    decreases |fs|
  {
    if |fs| == 0 then c
    else SendOne(SendAll(c, fs[..|fs| - 1], ws), fs[|fs| - 1], ws[|fs| - 1])
  }

  /** The frames of PROXYPILOT_send_moves_trajectory: every one carries the length of the whole list. */
  function TrajectoryFrames(size: int, cmds: seq<Command>): (fs: seq<seq<Byte>>)
    ensures |fs| == |cmds|
    ensures forall i :: 0 <= i < |cmds| ==> fs[i] == TrajectoryFrame(size, cmds[i])
  {
    seq(|cmds|, i requires 0 <= i < |cmds| => TrajectoryFrame(size, cmds[i]))
  }

  /**
   * On a connected socket whose writes all succeed, the frames reach the
   * wire whole and in order, the connection stays open, and one write
   * request per frame is posted.
   */
  lemma {:induction false} SendAllConnected(c: CutePostman.Conn, fs: seq<seq<Byte>>, ws: seq<WriteOutcome>)
    requires c.socket == CutePostman.Open && |ws| >= |fs|
    requires forall i :: 0 <= i < |fs| ==> WellFormed(fs[i])
    requires forall i :: 0 <= i < |fs| ==> Sendable(fs[i]) && ws[i] == WriteAll
    ensures SendAll(c, fs, ws).socket == CutePostman.Open
    ensures SendAll(c, fs, ws).wire == c.wire + Concat(fs)
    ensures |SendAll(c, fs, ws).mailbox| == |c.mailbox| + |fs|
    decreases |fs|
  {
    if |fs| > 0 {
      var n := |fs| - 1;
      SendAllConnected(c, fs[..n], ws);
      ConcatSnoc(fs[..n], fs[n]);
      assert fs[..n] + [fs[n]] == fs;
    }
  }

  lemma {:induction false} ConcatSnoc(fs: seq<seq<Byte>>, f: seq<Byte>)
    ensures Concat(fs + [f]) == Concat(fs) + f
    decreases |fs|
  {
    if |fs| == 0 {
      assert Concat([f]) == f + Concat([]);
    } else {
      assert (fs + [f])[1..] == fs[1..] + [f];
      ConcatSnoc(fs[1..], f);
    }
  }

  /** Without a connection nothing is written, whatever the outcomes: the frames are lost. */
  lemma {:induction false} SendAllUnconnected(c: CutePostman.Conn, fs: seq<seq<Byte>>, ws: seq<WriteOutcome>)
    requires c.socket != CutePostman.Open && |ws| >= |fs|
    requires forall i :: 0 <= i < |fs| ==> Sendable(fs[i])
    ensures SendAll(c, fs, ws).wire == c.wire
    ensures SendAll(c, fs, ws).socket == c.socket
    decreases |fs|
  {
    if |fs| > 0 {
      SendAllUnconnected(c, fs[..|fs| - 1], ws);
    }
  }

  /** PROXYPILOT_stop_robot. */
  method StopRobot(postman: CutePostman.Postman, w: WriteOutcome)
    modifies postman
    ensures postman.Abs() == SendOne(old(postman.Abs()), StopRobotFrame(), w)
  {
    postman.SendRequest(StopRobotFrame(), w);
  }

  /** PROXYPILOT_send_robot_position: the coordinates and heading are cast to uint8_t. */
  method SendRobotPosition(postman: CutePostman.Postman, x: int, y: int, dir: int, w: WriteOutcome)
    modifies postman
    ensures postman.Abs() == SendOne(old(postman.Abs()), RobotPositionFrame(x, y, dir), w)
  {
    postman.SendRequest(RobotPositionFrame(x, y, dir), w);
  }

  /**
   * PROXYPILOT_send_move_cartography as written: the header announces size
   * 2, so only the four header bytes are sent and the command byte, copied
   * past the end of the buffer, never leaves the console.
   */
  method SendMoveCartography(postman: CutePostman.Postman, cmd: Command, w: WriteOutcome)
    modifies postman
    ensures postman.Abs() == SendOne(old(postman.Abs()), MoveCartographyFrameAsWritten(cmd), w)
  {
    postman.SendRequest(MoveCartographyFrameAsWritten(cmd), w);
  }

  /** PROXYPILOT_send_move_cartography corrected: size 3, with the command byte inside the frame. */
  method SendMoveCartographyCorrected(postman: CutePostman.Postman, cmd: Command, w: WriteOutcome)
    modifies postman
    ensures postman.Abs() == SendOne(old(postman.Abs()), MoveCartographyFrame(cmd), w)
  {
    postman.SendRequest(MoveCartographyFrame(cmd), w);
  }

  /**
   * PROXYPILOT_send_moves_trajectory: one frame per command, each carrying
   * `size`. A `size` beyond the array would read past it, so callers must
   * stay within it; a negative size sends nothing.
   */
  method SendMovesTrajectory(postman: CutePostman.Postman, command: array<Command>, size: int, ws: seq<WriteOutcome>)
    requires size <= command.Length && |ws| >= size
    modifies postman
    ensures postman.Abs() == SendAll(old(postman.Abs()), TrajectoryFrames(size, command[..if size < 0 then 0 else size]), ws)
  {
    var i := 0;
    while i < size
      invariant 0 <= i <= (if size < 0 then 0 else size)
      invariant postman.Abs() == SendAll(old(postman.Abs()), TrajectoryFrames(size, command[..i]), ws)
    {
      postman.SendRequest(TrajectoryFrame(size, command[i]), ws[i]);
      assert TrajectoryFrames(size, command[..i + 1])[..i] == TrajectoryFrames(size, command[..i]);
      i := i + 1;
    }
  }
}
