/*
 * The console's postman (Cute/client_tcp/postman.cpp): a TCP client thread
 * with the same states, events and mailbox as the robot's postman, but a
 * hand-written if/else chain instead of a table, and with frames written
 * synchronously by the thread that posts them. The loop ignores the results
 * of its actions.
 *
 * The socket is created once, by POSTMAN_create, and only ever closed
 * afterwards; connect() on a closed descriptor fails, so the model keeps the
 * descriptor's history (Socket) rather than a flag.
 */
module CutePostman {
  import opened Protocol
  import opened Codec
  import opened Mailbox
  import opened ReaderState
  import Carto = CartoPostman

  /** The life of client_socket: created, connected by a successful connect(), closed. */
  datatype Socket = Unconnected | Open | Closed

  /** What connect() would do on a fresh socket: fail, or reach a server that will send `peer`. */
  datatype ConnectOutcome = Refused | Accepted(peer: seq<Byte>)

  /** The module globals, with the dispatcher's state. */
  datatype Conn = Conn(
    state: PState,          // the loop's current state
    mailbox: seq<MqMsg>,    // messages posted and not yet received, oldest first
    socket: Socket,         // client_socket
    waiting: bool,          // is_in_waiting_connection
    wire: seq<Byte>,        // every byte written to the robot so far
    inbound: seq<Byte>,     // bytes sent by the robot and not yet read
    reader: DState)         // the dispatcher's state variable

  function Post(c: Conn, e: Event): Conn
  {
    c.(mailbox := c.mailbox + [MqMsg(e, [])])
  }

  /**
   * POSTMAN_action_polling_connection: connect() succeeds only on the fresh
   * socket; success posts CONNECTION and lets the dispatcher read, failure
   * posts another probe (after a one second sleep, not modelled).
   */
  function PollingAction(c: Conn, co: ConnectOutcome): (r: Conn)
    ensures Probes(r.mailbox) == Probes(c.mailbox) + 1
    ensures r.socket == Open <==> c.socket == Open || (c.socket == Unconnected && co.Accepted?)
    ensures r.socket == Closed <==> c.socket == Closed
    ensures r.wire == c.wire && r.state == c.state
  {
    ProbesAppend(c.mailbox, [MqMsg(PollConnection, [])]);
    ProbesAppend(c.mailbox, [MqMsg(Connection, [])]);
    if c.socket == Unconnected && co.Accepted? then
      Post(c, Connection).(socket := Open, inbound := co.peer, reader := ReadingMsg, waiting := false)
    else
      Post(c, PollConnection)
  }

  /**
   * POSTMAN_action_send_msg: write the size bytes plus the announced size on
   * a connected socket; a broken pipe posts DISCONNECTION. A stream socket
   * that was never connected fails every write with EPIPE, so DISCONNECTION
   * is posted whatever `w` says; a closed descriptor fails with EBADF and
   * nothing happens.
   */
  function SendAction(c: Conn, data: seq<Byte>, w: WriteOutcome): (r: Conn)
    requires Sendable(data)
    ensures r.wire == c.wire + (if c.socket == Open && w == WriteAll then Transmitted(data) else [])
    ensures r.mailbox == c.mailbox +
      (if c.socket == Unconnected || (c.socket == Open && w == WriteBrokenPipe) then [MqMsg(Disconnection, [])] else [])
    ensures r.state == c.state && r.socket == c.socket
  {
    match c.socket
    case Unconnected => Post(c, Disconnection)
    case Closed => c
    case Open =>
      match w
      case WriteError => c
      case WriteBrokenPipe => Post(c, Disconnection)
      case WriteAll => c.(wire := c.wire + Transmitted(data))
  }

  /** POSTMAN_action_disconnection: close the socket and start probing; close() of a closed descriptor fails. */
  function DisconnectAction(c: Conn): (r: Conn)
    ensures r.socket == Closed && r.wire == c.wire
    ensures c.socket != Closed ==> r.waiting && Probes(r.mailbox) == Probes(c.mailbox) + 1
    ensures c.socket == Closed ==> r == c
  {
    ProbesAppend(c.mailbox, [MqMsg(PollConnection, [])]);
    if c.socket == Closed then c
    else Post(c, PollConnection).(socket := Closed, waiting := true)
  }

  /**
   * One iteration of the loop of POSTMAN_run. While waiting: a probe polls,
   * CONNECTION moves to writing, STOP to death. While writing: a write
   * request does nothing (the frame was written by the sender), DISCONNECTION
   * disconnects and moves to waiting, CONNECTION stays, STOP moves to death.
   * Every other message is dropped.
   */
  function Next(c: Conn, co: ConnectOutcome): (r: Conn)
    requires |c.mailbox| > 0
    ensures r.wire == c.wire
    ensures c.state == Death ==> r == c.(mailbox := c.mailbox[1..])
  {
    var e := c.mailbox[0].event;
    var rest := c.(mailbox := c.mailbox[1..]);
    if c.state == WaitingConnection then
      if e == PollConnection then PollingAction(rest, co)
      else if e == Connection then rest.(state := WriteMsgOnSocket)
      else if e == StopEvent then rest.(state := Death)
      else rest
    else if c.state == WriteMsgOnSocket then
      if e == WriteRequest then rest
      else if e == Disconnection then DisconnectAction(rest).(state := WaitingConnection)
      else if e == Connection then rest
      else if e == StopEvent then rest.(state := Death)
      else rest
    else rest
  }

  /**
   * The read of POSTMAN_read_msg on client_socket: a socket never connected
   * fails the read (ENOTCONN), a closed one yields the error buffer (EBADF).
   */
  function ReadOn(c: Conn, fault: ReadFault): ReadStep
    requires CanRead(c, fault)
  {
    ReadMsg(c.inbound, c.socket != Closed, if c.socket == Unconnected then SizeReadError else fault)
  }

  predicate CanRead(c: Conn, fault: ReadFault)
  {
    Readable(c.inbound, c.socket != Closed, if c.socket == Unconnected then SizeReadError else fault)
  }

  /**
   * What POSTMAN_read_request leaves behind: the bytes read are consumed;
   * when the robot has closed, the dispatcher is told to wait for a
   * reconnection and DISCONNECTION is posted.
   */
  function AfterRead(c: Conn, st: ReadStep): (r: Conn)
    ensures r.inbound == st.rest && r.wire == c.wire && r.state == c.state && r.socket == c.socket
    ensures r.mailbox == c.mailbox + (if st.peerClosed then [MqMsg(Disconnection, [])] else [])
    ensures r.reader == (if st.peerClosed then WaitingReconnection else c.reader)
  {
    (if st.peerClosed then Post(c, Disconnection).(reader := WaitingReconnection) else c).(inbound := st.rest)
  }

  /** How the thread of POSTMAN_run stops, or why the model stops following it. */
  datatype RunEnd =
    | Died          // S_DEATH reached: the thread returns 0
    | Blocked       // the mailbox is empty: mq_receive waits for another thread
    | OutOfInputs   // no more connect outcomes were supplied

  datatype RunResult = RunResult(conn: Conn, end: RunEnd)

  /** The loop of POSTMAN_run, one connect outcome per iteration. */
  function Loop(c: Conn, cos: seq<ConnectOutcome>): (r: RunResult)
    ensures r.end == Died <==> r.conn.state == Death
    ensures r.conn.wire == c.wire
    decreases |cos|
  {
    if c.state == Death then RunResult(c, Died)
    else if |c.mailbox| == 0 then RunResult(c, Blocked)
    else if |cos| == 0 then RunResult(c, OutOfInputs)
    else Loop(Next(c, cos[0]), cos[1..])
  }

  /** The prologue of POSTMAN_run: start waiting and poll once. */
  function Begin(c: Conn, first: ConnectOutcome): Conn
  {
    PollingAction(c.(state := WaitingConnection), first)
  }

  // ------------------------------------------------------------ the two postmen

  /**
   * The if/else chain moves to the same state as the robot's table for every
   * listed pair, and stays put where the table says S_FORGET.
   */
  lemma SameDestinationsAsRobot(c: Conn, co: ConnectOutcome)
    requires |c.mailbox| > 0 && c.state in {WaitingConnection, WriteMsgOnSocket}
    ensures var tr := Carto.Table(c.state, c.mailbox[0].event);
      Next(c, co).state == (if tr.destination == Forget then c.state else tr.destination)
  {
  }

  /**
   * The difference: a write request received while writing does not touch
   * the socket here, where the robot's postman writes the frame.
   */
  lemma WriteRequestWritesNothing(c: Conn, co: ConnectOutcome)
    requires |c.mailbox| > 0 && c.mailbox[0].event == WriteRequest
    ensures Next(c, co) == c.(mailbox := c.mailbox[1..])
  {
  }

  // ------------------------------------------------------------ invariant

  /**
   * While waiting exactly one probe is in flight and a pending CONNECTION
   * implies a connected socket; while writing no probe is in flight and the
   * socket is connected.
   */
  predicate Inv(c: Conn)
  {
    && c.state != Forget
    && (c.state == WaitingConnection ==> Probes(c.mailbox) == 1 && (HasConnection(c.mailbox) ==> c.socket == Open))
    && (c.state == WriteMsgOnSocket ==> Probes(c.mailbox) == 0 && c.socket == Open)
  }

  lemma BeginEstablishesInv(c: Conn, first: ConnectOutcome)
    requires Probes(c.mailbox) == 0
    ensures Inv(Begin(c, first))
  {
    var r := Begin(c, first);
    NoProbeNoConnection(c.mailbox);
    var e := r.mailbox[|r.mailbox| - 1];
    assert r.mailbox == c.mailbox + [e];
    AppendOne(c.mailbox, e);
  }

  lemma StepKeepsInv(c: Conn, co: ConnectOutcome)
    requires Inv(c) && |c.mailbox| > 0
    ensures Inv(Next(c, co))
  {
    var e := c.mailbox[0].event;
    DropFirst(c.mailbox);
    var rest := c.(mailbox := c.mailbox[1..]);
    var r := Next(c, co);
    if c.state == WaitingConnection && e == PollConnection {
      NoProbeNoConnection(rest.mailbox);
      var m := r.mailbox[|r.mailbox| - 1];
      assert r.mailbox == rest.mailbox + [m];
      AppendOne(rest.mailbox, m);
    } else if c.state == WriteMsgOnSocket && e == Disconnection {
      NoProbeNoConnection(rest.mailbox);
      var m := MqMsg(PollConnection, []);
      assert r.mailbox == rest.mailbox + [m];
      AppendOne(rest.mailbox, m);
    }
  }

  /** Messages posted by other threads keep the invariant. */
  lemma PostKeepsInv(c: Conn, m: MqMsg)
    requires Inv(c) && m.event in {WriteRequest, Disconnection, StopEvent}
    ensures Inv(c.(mailbox := c.mailbox + [m]))
  {
    AppendOne(c.mailbox, m);
  }

  /** So does a synchronous send, which may post DISCONNECTION. */
  lemma SendKeepsInv(c: Conn, data: seq<Byte>, w: WriteOutcome)
    requires Inv(c) && Sendable(data)
    ensures Inv(SendAction(c.(mailbox := c.mailbox + [MqMsg(WriteRequest, data)]), data, w))
  {
    var c1 := c.(mailbox := c.mailbox + [MqMsg(WriteRequest, data)]);
    AppendOne(c.mailbox, MqMsg(WriteRequest, data));
    AppendOne(c1.mailbox, MqMsg(Disconnection, []));
  }

  // ------------------------------------------------------------ guarantees

  /**
   * Once closed, the socket stays closed whatever the loop receives: every
   * later probe fails and posts another probe, so the console never
   * reconnects after a disconnection.
   */
  lemma {:induction false} ClosedForever(c: Conn, cos: seq<ConnectOutcome>)
    requires c.socket == Closed
    ensures Loop(c, cos).conn.socket == Closed
    decreases |cos|
  {
    if c.state != Death && |c.mailbox| > 0 && |cos| > 0 {
      ClosedForever(Next(c, cos[0]), cos[1..]);
    }
  }

  /** A probe on a closed socket is answered by another probe and nothing else. */
  lemma ProbeAfterCloseRepeats(c: Conn, co: ConnectOutcome)
    requires c.socket == Closed && |c.mailbox| > 0
    requires c.state == WaitingConnection && c.mailbox[0].event == PollConnection
    ensures Next(c, co) == c.(mailbox := c.mailbox[1..] + [MqMsg(PollConnection, [])])
  {
  }

  /**
   * A DISCONNECTION posted by a send before the first connection is taken
   * while waiting and dropped: only the message leaves the mailbox.
   */
  lemma DisconnectionWhileWaitingDropped(c: Conn, co: ConnectOutcome)
    requires c.state == WaitingConnection && |c.mailbox| > 0 && c.mailbox[0].event == Disconnection
    ensures Next(c, co) == c.(mailbox := c.mailbox[1..])
  {
  }

  /** A frame sent while connected reaches the wire at once and whole. */
  lemma SendWritesFrame(c: Conn, f: seq<Byte>)
    requires c.socket == Open && WellFormed(f)
    ensures Sendable(f)
    ensures SendAction(c, f, WriteAll).wire == c.wire + f
  {
  }

  // ------------------------------------------------------------ the object

  class Postman {
    var state: PState
    var mailbox: seq<MqMsg>
    var socket: Socket
    var waiting: bool
    var wire: seq<Byte>
    var inbound: seq<Byte>
    const gate: Gate

    function Abs(): Conn
      reads this, gate
    {
      Conn(state, mailbox, socket, waiting, wire, inbound, gate.state)
    }

    /** POSTMAN_create: an empty mailbox and a fresh socket (address set-up is not modelled). */
    constructor (gate: Gate)
      ensures this.gate == gate
      ensures state == WaitingConnection && mailbox == [] && socket == Unconnected && !waiting
      ensures wire == [] && inbound == []
    {
      this.gate := gate;
      state := WaitingConnection;
      mailbox := [];
      socket := Unconnected;
      waiting := false;
      wire := [];
      inbound := [];
    }

    method Enqueue(m: MqMsg)
      modifies this
      ensures Abs() == old(Abs()).(mailbox := old(mailbox) + [m])
    {
      mailbox := mailbox + [m];
    }

    /**
     * POSTMAN_send_request: post a write request, then write the frame in the
     * caller's thread.
     */
    method SendRequest(data: seq<Byte>, w: WriteOutcome)
      requires Sendable(data)
      modifies this
      ensures Abs() == SendAction(old(Abs()).(mailbox := old(mailbox) + [MqMsg(WriteRequest, data)]), data, w)
    {
      Enqueue(MqMsg(WriteRequest, data));
      ActionSend(data, w);
    }

    /** POSTMAN_disconnect: post DISCONNECTION. */
    method Disconnect()
      modifies this
      ensures Abs() == Post(old(Abs()), Disconnection)
    {
      Enqueue(MqMsg(Disconnection, []));
    }

    /** POSTMAN_stop: post STOP (joining the thread and closing the socket are not modelled). */
    method Stop()
      modifies this
      ensures Abs() == Post(old(Abs()), StopEvent)
    {
      Enqueue(MqMsg(StopEvent, []));
    }

    /** POSTMAN_read_request. */
    method ReadRequest(fault: ReadFault) returns (r: ReadResult)
      requires CanRead(Abs(), fault)
      modifies this, gate
      ensures r == ReadOn(old(Abs()), fault).result
      ensures Abs() == AfterRead(old(Abs()), ReadOn(old(Abs()), fault))
    {
      var st := ReadMsg(inbound, socket != Closed, if socket == Unconnected then SizeReadError else fault);
      r := st.result;
      inbound := st.rest;
      if st.peerClosed {
        gate.Disconnect();
        Disconnect();
      }
    }

    method ActionPolling(co: ConnectOutcome)
      modifies this, gate
      ensures Abs() == PollingAction(old(Abs()), co)
    {
      if socket == Unconnected && co.Accepted? {
        socket := Open;
        inbound := co.peer;
        Enqueue(MqMsg(Connection, []));
        gate.StartReading();
        waiting := false;
      } else {
        Enqueue(MqMsg(PollConnection, []));
      }
    }

    method ActionSend(data: seq<Byte>, w: WriteOutcome)
      requires Sendable(data)
      modifies this
      ensures Abs() == SendAction(old(Abs()), data, w)
    {
      if socket == Unconnected {
        Enqueue(MqMsg(Disconnection, []));
        return;
      }
      if socket == Closed || w == WriteError {
        return;
      }
      if w == WriteBrokenPipe {
        Enqueue(MqMsg(Disconnection, []));
      } else {
        wire := wire + data[..FrameLength(data)];
      }
    }

    method ActionDisconnection()
      modifies this
      ensures Abs() == DisconnectAction(old(Abs()))
    {
      if socket != Closed {
        socket := Closed;
        Enqueue(MqMsg(PollConnection, []));
        waiting := true;
      }
    }

    /** One iteration of the loop of POSTMAN_run. */
    method Step(co: ConnectOutcome)
      requires |mailbox| > 0
      modifies this, gate
      ensures Abs() == Next(old(Abs()), co)
    {
      var e := mailbox[0].event;
      mailbox := mailbox[1..];
      if state == WaitingConnection {
        if e == PollConnection {
          ActionPolling(co);
        } else if e == Connection {
          state := WriteMsgOnSocket;
        } else if e == StopEvent {
          state := Death;
        }
      } else if state == WriteMsgOnSocket {
        if e == Disconnection {
          ActionDisconnection();
          state := WaitingConnection;
        } else if e == StopEvent {
          state := Death;
        }
      }
    }

    /** POSTMAN_run: the prologue, then iterations until S_DEATH or until the model stops. */
    method Run(first: ConnectOutcome, cos: seq<ConnectOutcome>) returns (end: RunEnd)
      modifies this, gate
      ensures RunResult(Abs(), end) == Loop(Begin(old(Abs()), first), cos)
    {
      state := WaitingConnection;
      ActionPolling(first);
      var i := 0;
      while state != Death
        invariant 0 <= i <= |cos|
        invariant Loop(Abs(), cos[i..]) == Loop(Begin(old(Abs()), first), cos)
        decreases |cos| - i
      {
        if |mailbox| == 0 {
          return Blocked;
        }
        if i == |cos| {
          return OutOfInputs;
        }
        Step(cos[i]);
        assert cos[i..][1..] == cos[i + 1..];
        i := i + 1;
      }
      return Died;
    }
  }
}
