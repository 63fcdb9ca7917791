/*
 * The console's dispatcher (Cute/client_tcp/dispatcher.cpp): the same
 * reading loop as the robot's, except that a NULL read ends the thread, and
 * dispatching is empty for every kind of frame. Decoding recognises the four
 * kinds the robot sends (Codec.CuteDecode) and copies the payload into the
 * 20-byte data_received.
 */
module CuteDispatcher {
  import opened Protocol
  import opened Codec
  import opened Mailbox
  import opened ReaderState
  import CutePostman

  /** MAX_RECEIVED_BYTES. */
  const MaxReceivedBytes := 20

  /**
   * A frame decode_message can handle: all announced bytes present, and a
   * payload that fits data_received. Whether the header and the announced
   * bytes are present depends only on the big-endian size field, which both
   * programs share, so the robot's `CartoDecodable` serves here too.
   */
  predicate Fits(raw: seq<Byte>)
  {
    CartoDecodable(raw) && (CuteDecode(raw).payload.Some? ==> |CuteDecode(raw).payload.value| <= MaxReceivedBytes)
  }

  /** data_received after decode_message. */
  function Received(data: seq<Byte>, payload: Option<seq<Byte>>): (r: seq<Byte>)
    requires payload.Some? ==> |payload.value| <= |data|
    ensures |r| == |data|
    ensures payload.Some? ==> r[..|payload.value|] == payload.value && r[|payload.value|..] == data[|payload.value|..]
    ensures payload.None? ==> r == data
  {
    if payload.Some? then payload.value + data[|payload.value|..] else data
  }

  /** Everything one iteration of the loop touches. */
  datatype World = World(conn: CutePostman.Conn, data: seq<Byte>)

  /** The next iteration has defined behaviour: no one-byte read, and a decodable frame that fits. */
  predicate StepSafe(w: World, fault: ReadFault)
  {
    w.conn.reader == ReadingMsg ==>
      && CutePostman.CanRead(w.conn, fault)
      && |w.data| == MaxReceivedBytes
      && var st := CutePostman.ReadOn(w.conn, fault);
         (st.result.Buffer? && st.result.bytes[0] != EBADF ==> Fits(st.result.bytes))
  }

  /** The outcome of one iteration: the new world, and whether the thread returned. */
  datatype StepResult = StepResult(world: World, ended: bool)

  /**
   * One iteration of run: nothing happens unless the state is
   * S_READING_MSG; then one read. NULL ends the thread, the error buffer
   * makes the dispatcher wait for a reconnection, and a frame is decoded
   * (dispatching it does nothing).
   */
  function RunStep(w: World, fault: ReadFault): (r: StepResult)
    requires StepSafe(w, fault)
    ensures |r.world.data| == |w.data|
    ensures r.world.conn.wire == w.conn.wire && r.world.conn.state == w.conn.state && r.world.conn.socket == w.conn.socket
    ensures w.conn.reader != ReadingMsg ==> r == StepResult(w, false)
  {
    if w.conn.reader != ReadingMsg then StepResult(w, false)
    else
      var st := CutePostman.ReadOn(w.conn, fault);
      var c := CutePostman.AfterRead(w.conn, st);
      match st.result
      case NullBuffer => StepResult(w.(conn := c), true)
      case Buffer(b) =>
        if b[0] == EBADF then StepResult(w.(conn := c.(reader := WaitingReconnection)), false)
        else StepResult(World(c, Received(w.data, CuteDecode(b).payload)), false)
  }

  /** How run ends, or why the model stops following it. */
  datatype RunEnd =
    | Stopped       // the state was S_STOP
    | ReadFailed    // POSTMAN_read_request returned NULL: the thread returned
    | Undefined     // the next iteration would read or write out of bounds
    | OutOfInputs   // no more read faults were supplied

  datatype RunResult = RunResult(world: World, end: RunEnd)

  function Loop(w: World, faults: seq<ReadFault>): (r: RunResult)
    ensures r.end == Stopped <==> r.world.conn.reader == DState.Stop
    ensures r.world.conn.wire == w.conn.wire
    decreases |faults|
  {
    if w.conn.reader == DState.Stop then RunResult(w, Stopped)
    else if |faults| == 0 then RunResult(w, OutOfInputs)
    else if !StepSafe(w, faults[0]) then RunResult(w, Undefined)
    else
      var s := RunStep(w, faults[0]);
      if s.ended then RunResult(s.world, ReadFailed) else Loop(s.world, faults[1..])
  }

  // ------------------------------------------------------------ guarantees

  /**
   * When the robot closes the connection the thread ends for good, after
   * telling the postman: unlike the robot's dispatcher, it will not read
   * from a later connection.
   */
  lemma PeerCloseEndsThread(w: World, faults: seq<ReadFault>)
    requires w.conn.reader == ReadingMsg && w.conn.socket == CutePostman.Open && w.conn.inbound == []
    requires |faults| > 0 && faults[0] != SizeReadError && |w.data| == MaxReceivedBytes
    ensures StepSafe(w, faults[0])
    ensures Loop(w, faults) ==
      RunResult(w.(conn := w.conn.(mailbox := w.conn.mailbox + [MqMsg(Disconnection, [])], reader := WaitingReconnection)), ReadFailed)
  {
  }

  /** A frame the robot sends is decoded with its kind and its payload lands in data_received. */
  lemma DecodesRobotFrame(w: World, t: MessageType, payload: seq<Byte>, rest: seq<Byte>)
    requires w.conn.reader == ReadingMsg && w.conn.socket == CutePostman.Open && |w.data| == MaxReceivedBytes
    requires t in {MoveDone, RobotPositionReceived, SetObstaclePosition, SetRobotPosition}
    requires |payload| <= MaxReceivedBytes
    requires w.conn.inbound == CartoFrame(t, payload) + rest
    ensures StepSafe(w, NoFault)
    ensures CuteDecode(CartoFrame(t, payload)).msgType == Some(t)
    ensures RunStep(w, NoFault) == StepResult(World(w.conn.(inbound := rest), payload + w.data[|payload|..]), false)
  {
    var f := CartoFrame(t, payload);
    ReadsWholeFrame(f, rest);
    RobotToConsole(t, payload);
    if |payload| == 0 {
      assert payload + w.data[|payload|..] == w.data;
    }
  }

  // ------------------------------------------------------------ the object

  class Dispatcher {
    const dataReceived: array<Byte>
    const gate: Gate
    const postman: CutePostman.Postman

    predicate Valid()
      reads this, postman
    {
      dataReceived.Length == MaxReceivedBytes && postman.gate == gate
    }

    function WorldView(): World
      reads this, dataReceived, postman, postman.gate
    {
      World(postman.Abs(), dataReceived[..])
    }

    /** DISPATCHER_create: data_received holds whatever malloc returned (`garbage`). */
    constructor (gate: Gate, postman: CutePostman.Postman, garbage: seq<Byte>)
      requires |garbage| == MaxReceivedBytes && postman.gate == gate
      ensures Valid() && this.gate == gate && this.postman == postman
      ensures dataReceived[..] == garbage && fresh(dataReceived)
    {
      this.gate := gate;
      this.postman := postman;
      dataReceived := new Byte[MaxReceivedBytes](i requires 0 <= i < MaxReceivedBytes => garbage[i]);
    }

    /** decode_message. */
    method Decode(raw: seq<Byte>) returns (h: CuteHead)
      requires Valid() && Fits(raw)
      modifies dataReceived
      ensures h == CuteDecode(raw)
      ensures dataReceived[..] == Received(old(dataReceived[..]), h.payload)
    {
      var size := Int16(Be16(raw[0], raw[1]));
      h := CuteHead(size, CuteTypeOf(Be16(raw[2], raw[3])), if size > 2 then Some(raw[4..size + 2]) else None);
      if size > 2 {
        forall i | 0 <= i < size - 2 {
          dataReceived[i] := raw[4 + i];
        }
        assert dataReceived[..] == raw[4..size + 2] + old(dataReceived[..])[size - 2..];
      }
    }

    /** One iteration of run; `ended` is the thread returning after a NULL read. */
    method Step(fault: ReadFault) returns (ended: bool)
      requires Valid() && StepSafe(WorldView(), fault)
      modifies dataReceived, postman, gate
      ensures Valid()
      ensures StepResult(WorldView(), ended) == RunStep(old(WorldView()), fault)
    {
      if gate.state != ReadingMsg {
        return false;
      }
      var raw := postman.ReadRequest(fault);
      if raw.NullBuffer? {
        return true;
      }
      if raw.bytes[0] == EBADF {
        gate.Disconnect();
      } else {
        var h := Decode(raw.bytes);
      }
      return false;
    }

    /** run: iterate while the state is not S_STOP and reads succeed. */
    method Run(faults: seq<ReadFault>) returns (end: RunEnd)
      requires Valid()
      modifies dataReceived, postman, gate
      ensures Valid()
      ensures RunResult(WorldView(), end) == Loop(old(WorldView()), faults)
    {
      var i := 0;
      while gate.state != DState.Stop
        invariant 0 <= i <= |faults| && Valid()
        invariant Loop(WorldView(), faults[i..]) == Loop(old(WorldView()), faults)
        decreases |faults| - i
      {
        if i == |faults| {
          return OutOfInputs;
        }
        if !StepSafe(WorldView(), faults[i]) {
          return Undefined;
        }
        var ended := Step(faults[i]);
        if ended {
          return ReadFailed;
        }
        assert faults[i..][1..] == faults[i + 1..];
        i := i + 1;
      }
      return Stopped;
    }
  }
}
