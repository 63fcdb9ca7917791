/*
 * The robot's outgoing messages (Carto/src/com/proxyMap.c,
 * Carto/src/com/proxyCartography.c): each builds one frame and hands it to
 * the postman as a write request. The bytes are given by the encoders of
 * module Codec; the buffers are never freed, which the model does not track.
 */
module CartoProxies {
  import opened Protocol
  import opened Codec
  import opened Mailbox
  import CartoPostman

  /** The write requests posting the frames `fs`, in order. */
  function Requests(fs: seq<seq<Byte>>): (ms: seq<MqMsg>)
    ensures |ms| == |fs|
    ensures forall i :: 0 <= i < |fs| ==> ms[i] == MqMsg(WriteRequest, fs[i])
  {
    if |fs| == 0 then [] else [MqMsg(WriteRequest, fs[0])] + Requests(fs[1..])
  }

  lemma {:induction false} RequestsAppend(a: seq<seq<Byte>>, b: seq<seq<Byte>>)
    ensures Requests(a + b) == Requests(a) + Requests(b)
  {
    if |a| == 0 {
      assert a + b == b;
    } else {
      assert (a + b)[1..] == a[1..] + b;
      RequestsAppend(a[1..], b);
    }
  }

  /** Every frame the robot's proxies build is complete, so the postman writes all of it. */
  lemma ProxyFramesComplete(x: int, y: int)
    ensures WellFormed(ObstacleFrame(x, y)) && Transmitted(ObstacleFrame(x, y)) == ObstacleFrame(x, y)
    ensures WellFormed(RobotCellFrame(x, y)) && Transmitted(RobotCellFrame(x, y)) == RobotCellFrame(x, y)
    ensures WellFormed(PositionReceivedFrame()) && |PositionReceivedFrame()| == 4
    ensures WellFormed(MoveDoneFrame()) && |MoveDoneFrame()| == 4
  {
  }

  /** Three batches of requests queued one after another are the requests of the three batches joined. */
  lemma RequestsAppend3(mb: seq<MqMsg>, a: seq<seq<Byte>>, b: seq<seq<Byte>>, c: seq<seq<Byte>>)
    ensures mb + Requests(a) + Requests(b) + Requests(c) == mb + Requests(a + b + c)
  {
    RequestsAppend(a, b);
    RequestsAppend(a + b, c);
    Regroup(mb, Requests(a), Requests(b), Requests(c));
  }

  /** PROXYMAP_set_obstacle_position. */
  method SetObstaclePosition(postman: CartoPostman.Postman, x: int, y: int)
    modifies postman
    ensures postman.Abs() == old(postman.Abs()).(mailbox := old(postman.mailbox) + Requests([ObstacleFrame(x, y)]))
  {
    postman.SendRequest(ObstacleFrame(x, y));
  }

  /** PROXYMAP_set_robot_position. */
  method SetRobotPosition(postman: CartoPostman.Postman, x: int, y: int)
    modifies postman
    ensures postman.Abs() == old(postman.Abs()).(mailbox := old(postman.mailbox) + Requests([RobotCellFrame(x, y)]))
  {
    postman.SendRequest(RobotCellFrame(x, y));
  }

  /** PROXYCARTOGRAPHY_robot_position_received. */
  method RobotPositionReceived(postman: CartoPostman.Postman)
    modifies postman
    ensures postman.Abs() == old(postman.Abs()).(mailbox := old(postman.mailbox) + Requests([PositionReceivedFrame()]))
  {
    postman.SendRequest(PositionReceivedFrame());
  }

  /** PROXYCARTOGRAPHY_move_done. */
  method MoveDone(postman: CartoPostman.Postman)
    modifies postman
    ensures postman.Abs() == old(postman.Abs()).(mailbox := old(postman.mailbox) + Requests([MoveDoneFrame()]))
  {
    postman.SendRequest(MoveDoneFrame());
  }
}
