/*
 * The robot's postman (Carto/src/com/postman.c): a TCP server thread driven
 * by a table-based state machine and fed through a mailbox. Other threads
 * post write requests, disconnections and the stop request; the postman
 * itself posts connection probes while it waits for a client.
 *
 * The module globals are the fields of class Postman; the dispatcher's state
 * variable, which the postman sets, is the shared Gate. The pure functions
 * below give the meaning of each action and of one loop iteration on an
 * abstract view of those fields (Conn); the methods are proved to follow
 * them, and the lemmas state what the machine guarantees.
 */
module CartoPostman {
  import opened Protocol
  import opened Codec
  import opened Mailbox
  import opened ReaderState

  datatype Action = Nop | Disconnect | Connected | ConnectionPolling | Send | StopAction

  datatype Transition = Transition(destination: PState, action: Action)

  /**
   * my_state_machine. Seven entries are given; every other entry is zero,
   * i.e. destination S_FORGET, which the loop reads as "ignore the message".
   */
  function Table(s: PState, e: Event): (tr: Transition)
    ensures tr.destination == Forget <==> tr.action == Nop
    ensures tr.destination == Death <==> e == StopEvent && s in {WaitingConnection, WriteMsgOnSocket}
    ensures tr.action == Send <==> s == WriteMsgOnSocket && e == WriteRequest
    ensures tr.action == ConnectionPolling <==> s == WaitingConnection && e == PollConnection
    ensures tr.action == Disconnect <==> s == WriteMsgOnSocket && e == Disconnection
    ensures tr.destination == WriteMsgOnSocket ==> e in {Connection, WriteRequest}
    ensures tr.destination == WaitingConnection ==> e in {PollConnection, Disconnection}
  {
    match (s, e)
    case (WaitingConnection, PollConnection) => Transition(WaitingConnection, ConnectionPolling)
    case (WaitingConnection, Connection) => Transition(WriteMsgOnSocket, Connected)
    case (WaitingConnection, StopEvent) => Transition(Death, StopAction)
    case (WriteMsgOnSocket, WriteRequest) => Transition(WriteMsgOnSocket, Send)
    case (WriteMsgOnSocket, Disconnection) => Transition(WaitingConnection, Disconnect)
    case (WriteMsgOnSocket, Connection) => Transition(WriteMsgOnSocket, Connected)
    case (WriteMsgOnSocket, StopEvent) => Transition(Death, StopAction)
    case _ => Transition(Forget, Nop)
  }

  /** Outcome of select() on the listening socket and, when a client is pending, of accept(). */
  datatype SelectOutcome =
    | SelectFailed
    | SelectTimeout
    | ClientPending(acceptOk: bool, peer: seq<Byte>)  // peer: the bytes the new client will send

  /** What the socket calls of one loop iteration return. */
  datatype StepEnv = StepEnv(select: SelectOutcome, write: WriteOutcome)

  /** The module's globals, with the dispatcher's state. */
  datatype Conn = Conn(
    state: PState,          // the loop's current state
    mailbox: seq<MqMsg>,    // messages posted and not yet received, oldest first
    socketOpen: bool,       // data_socket refers to an accepted connection
    waiting: bool,          // is_in_waiting_connection
    wire: seq<Byte>,        // every byte written to clients so far
    inbound: seq<Byte>,     // bytes sent by the current client and not yet read
    reader: DState)         // the dispatcher's state variable

  /** An action's effect and whether it returned 0 (true) or -1 (false). */
  datatype Outcome = Outcome(conn: Conn, ok: bool)

  function Post(c: Conn, e: Event): Conn
  {
    c.(mailbox := c.mailbox + [MqMsg(e, [])])
  }

  /**
   * POSTMAN_action_polling_connection: on timeout post a new probe; on a
   * pending client accept it, post CONNECTION and let the dispatcher read.
   */
  function PollingAction(c: Conn, sel: SelectOutcome): (r: Outcome)
    ensures r.ok ==> Probes(r.conn.mailbox) == Probes(c.mailbox) + 1
    ensures r.ok <==> sel.SelectTimeout? || (sel.ClientPending? && sel.acceptOk)
    ensures r.conn.wire == c.wire && r.conn.state == c.state
  {
    ProbesAppend(c.mailbox, [MqMsg(PollConnection, [])]);
    ProbesAppend(c.mailbox, [MqMsg(Connection, [])]);
    match sel
    case SelectFailed => Outcome(c, false)
    case SelectTimeout => Outcome(Post(c, PollConnection), true)
    case ClientPending(acceptOk, peer) =>
      if !acceptOk then Outcome(c.(socketOpen := false), false)
      else Outcome(Post(c, Connection).(socketOpen := true, inbound := peer, reader := ReadingMsg, waiting := false), true)
  }

  /**
   * POSTMAN_action_send_msg: write the size bytes plus the announced size.
   * A broken pipe posts DISCONNECTION and still returns 0; any other
   * failure, including a closed descriptor, returns -1.
   */
  function SendAction(c: Conn, data: seq<Byte>, w: WriteOutcome): (r: Outcome)
    requires Sendable(data)
    ensures r.ok <==> c.socketOpen && w != WriteError
    ensures r.conn.wire == c.wire + (if c.socketOpen && w == WriteAll then Transmitted(data) else [])
    ensures Probes(r.conn.mailbox) == Probes(c.mailbox)
  {
    ProbesAppend(c.mailbox, [MqMsg(Disconnection, [])]);
    if !c.socketOpen then Outcome(c, false)
    else match w
      case WriteError => Outcome(c, false)
      case WriteBrokenPipe => Outcome(Post(c, Disconnection), true)
      case WriteAll => Outcome(c.(wire := c.wire + Transmitted(data)), true)
  }

  /** POSTMAN_action_disconnection: close the data socket and start probing again. */
  function DisconnectAction(c: Conn): (r: Outcome)
    ensures r.ok <==> c.socketOpen
    ensures r.ok ==> !r.conn.socketOpen && r.conn.waiting && Probes(r.conn.mailbox) == Probes(c.mailbox) + 1
    ensures r.conn.wire == c.wire
  {
    ProbesAppend(c.mailbox, [MqMsg(PollConnection, [])]);
    if !c.socketOpen then Outcome(c, false)  // close() fails with EBADF
    else Outcome(Post(c, PollConnection).(socketOpen := false, waiting := true), true)
  }

  /** actions_tab: A_NOP, A_CONNECTED and A_STOP do nothing and return 0. */
  function Perform(c: Conn, a: Action, data: seq<Byte>, env: StepEnv): Outcome
    requires a == Send ==> Sendable(data)
  {
    match a
    case Nop => Outcome(c, true)
    case Connected => Outcome(c, true)
    case StopAction => Outcome(c, true)
    case ConnectionPolling => PollingAction(c, env.select)
    case Send => SendAction(c, data, env.write)
    case Disconnect => DisconnectAction(c)
  }

  /**
   * One iteration of the loop of POSTMAN_run: receive the oldest message,
   * look up the transition, ignore the message when the entry is empty,
   * otherwise perform the action and move to the destination unless the
   * action returned -1 (which ends the thread).
   */
  function Next(c: Conn, env: StepEnv): (r: Outcome)
    requires |c.mailbox| > 0 && MailOk(c.mailbox)
    ensures MailOk(r.conn.mailbox)
    ensures r.ok && Table(c.state, c.mailbox[0].event).destination != Forget ==>
              r.conn.state == Table(c.state, c.mailbox[0].event).destination
    ensures Table(c.state, c.mailbox[0].event).destination == Forget ==>
              r == Outcome(c.(mailbox := c.mailbox[1..]), true)
  {
    var m := c.mailbox[0];
    var rest := c.(mailbox := c.mailbox[1..]);
    var tr := Table(c.state, m.event);
    if tr.destination == Forget then Outcome(rest, true)
    else
      var r := Perform(rest, tr.action, m.data, env);
      if r.ok then Outcome(r.conn.(state := tr.destination), true) else r
  }

  /**
   * What POSTMAN_read_request leaves behind: the bytes read are consumed;
   * when the client has closed, the dispatcher is told to wait for a
   * reconnection and DISCONNECTION is posted.
   */
  function AfterRead(c: Conn, st: ReadStep): (r: Conn)
    ensures r.inbound == st.rest && r.wire == c.wire && r.state == c.state && r.socketOpen == c.socketOpen
    ensures r.mailbox == c.mailbox + (if st.peerClosed then [MqMsg(Disconnection, [])] else [])
    ensures r.reader == (if st.peerClosed then WaitingReconnection else c.reader)
  {
    (if st.peerClosed then Post(c, Disconnection).(reader := WaitingReconnection) else c).(inbound := st.rest)
  }

  /** How the thread of POSTMAN_run stops, or why the model stops following it. */
  datatype RunEnd =
    | Died          // S_DEATH reached: the thread returns 0
    | ActionFailed  // an action returned -1: the thread returns NULL
    | Blocked       // the mailbox is empty: mq_receive waits for another thread
    | OutOfInputs   // no more socket outcomes were supplied

  datatype RunResult = RunResult(conn: Conn, end: RunEnd)

  /** The loop of POSTMAN_run, one socket outcome per iteration. */
  function Loop(c: Conn, envs: seq<StepEnv>): (r: RunResult)
    requires MailOk(c.mailbox)
    ensures r.end == Died <==> r.conn.state == Death
    decreases |envs|
  {
    if c.state == Death then RunResult(c, Died)
    else if |c.mailbox| == 0 then RunResult(c, Blocked)
    else if |envs| == 0 then RunResult(c, OutOfInputs)
    else
      var r := Next(c, envs[0]);
      if !r.ok then RunResult(r.conn, ActionFailed) else Loop(r.conn, envs[1..])
  }

  /** The prologue of POSTMAN_run: start waiting and poll once. */
  function Begin(c: Conn, first: SelectOutcome): Outcome
  {
    PollingAction(c.(state := WaitingConnection), first)
  }

  // ------------------------------------------------------------ invariant

  /**
   * While the postman waits for a client exactly one connection probe is in
   * flight; while it writes, the data socket is open and no probe is in
   * flight. The loop never stores S_FORGET.
   */
  predicate Inv(c: Conn)
  {
    && MailOk(c.mailbox)
    && c.state != Forget
    && (c.state == WaitingConnection ==> Probes(c.mailbox) == 1 && (HasConnection(c.mailbox) ==> c.socketOpen))
    && (c.state == WriteMsgOnSocket ==> Probes(c.mailbox) == 0 && c.socketOpen)
  }

  /** The prologue establishes the invariant on a mailbox holding no probe. */
  lemma BeginEstablishesInv(c: Conn, first: SelectOutcome)
    requires MailOk(c.mailbox) && Probes(c.mailbox) == 0
    ensures Begin(c, first).ok ==> Inv(Begin(c, first).conn)
  {
    var r := Begin(c, first);
    NoProbeNoConnection(c.mailbox);
    if r.ok {
      var e := r.conn.mailbox[|r.conn.mailbox| - 1];
      assert r.conn.mailbox == c.mailbox + [e];
      AppendOne(c.mailbox, e);
    }
  }

  /** Every iteration that does not fail keeps the invariant. */
  lemma StepKeepsInv(c: Conn, env: StepEnv)
    requires Inv(c) && |c.mailbox| > 0
    ensures Next(c, env).ok ==> Inv(Next(c, env).conn)
  {
    var m := c.mailbox[0];
    DropFirst(c.mailbox);
    var rest := c.(mailbox := c.mailbox[1..]);
    var tr := Table(c.state, m.event);
    var r := Next(c, env);
    if tr.destination != Forget && r.ok {
      match tr.action
      case ConnectionPolling =>
        NoProbeNoConnection(rest.mailbox);
        PollingKeepsInv(rest, env.select);
      case Disconnect =>
        NoProbeNoConnection(rest.mailbox);
        var e := MqMsg(PollConnection, []);
        assert r.conn.mailbox == rest.mailbox + [e];
        AppendOne(rest.mailbox, e);
      case Send =>
        if env.write == WriteBrokenPipe {
          var e := MqMsg(Disconnection, []);
          assert r.conn.mailbox == rest.mailbox + [e];
          AppendOne(rest.mailbox, e);
        }
      case Nop =>
      case Connected =>
      case StopAction =>
    }
  }

  lemma PollingKeepsInv(rest: Conn, sel: SelectOutcome)
    requires MailOk(rest.mailbox) && Probes(rest.mailbox) == 0 && !HasConnection(rest.mailbox)
    ensures var r := PollingAction(rest, sel);
      r.ok ==> MailOk(r.conn.mailbox) && Probes(r.conn.mailbox) == 1 && (HasConnection(r.conn.mailbox) ==> r.conn.socketOpen)
  {
    var r := PollingAction(rest, sel);
    if r.ok {
      var e := r.conn.mailbox[|r.conn.mailbox| - 1];
      assert r.conn.mailbox == rest.mailbox + [e];
      AppendOne(rest.mailbox, e);
    }
  }

  /** Messages posted by other threads (write requests, disconnection, stop) keep the invariant. */
  lemma PostKeepsInv(c: Conn, m: MqMsg)
    requires Inv(c) && m.event in {WriteRequest, Disconnection, StopEvent}
    requires m.event == WriteRequest ==> Sendable(m.data)
    ensures Inv(c.(mailbox := c.mailbox + [m]))
  {
    AppendOne(c.mailbox, m);
  }

  /** Under the invariant a CONNECTION event never reaches the writing state. */
  lemma NoConnectionWhileWriting(c: Conn)
    requires Inv(c) && c.state == WriteMsgOnSocket
    ensures forall i :: 0 <= i < |c.mailbox| ==> c.mailbox[i].event != Connection
  {
    forall i | 0 <= i < |c.mailbox|
      ensures c.mailbox[i].event != Connection
    {
      ProbesAppend(c.mailbox[..i], c.mailbox[i..]);
      assert c.mailbox == c.mailbox[..i] + c.mailbox[i..];
      DropFirst(c.mailbox[i..]);
    }
  }

  // ------------------------------------------------------------ guarantees

  /** A message with no table entry is consumed and has no other effect. */
  lemma UnlistedMessageIgnored(c: Conn, env: StepEnv)
    requires |c.mailbox| > 0 && MailOk(c.mailbox)
    requires c.state == WaitingConnection && c.mailbox[0].event in {WriteRequest, Disconnection}
    ensures Next(c, env) == Outcome(c.(mailbox := c.mailbox[1..]), true)
  {
  }

  /** STOP in either live state ends the thread normally. */
  lemma StopEndsRun(c: Conn, envs: seq<StepEnv>)
    requires Inv(c) && |c.mailbox| > 0 && |envs| > 0
    requires c.state != Death && c.mailbox[0].event == StopEvent
    ensures Loop(c, envs) == RunResult(c.(mailbox := c.mailbox[1..], state := Death), Died)
  {
    var r := Next(c, envs[0]);
    assert r == Outcome(c.(mailbox := c.mailbox[1..], state := Death), true);
    assert MailOk(r.conn.mailbox);
  }

  /** All-write-request mailboxes whose buffers are complete frames. */
  predicate AllFrames(mb: seq<MqMsg>)
  {
    forall i :: 0 <= i < |mb| ==> mb[i].event == WriteRequest && WellFormed(mb[i].data)
  }

  function Payloads(mb: seq<MqMsg>): (fs: seq<seq<Byte>>)
    ensures |fs| == |mb| && forall i :: 0 <= i < |mb| ==> fs[i] == mb[i].data
  {
    if |mb| == 0 then [] else [mb[0].data] + Payloads(mb[1..])
  }

  /**
   * In order delivery: while connected, queued frames are written to the
   * client one after the other, in the order they were posted, and the
   * postman then waits for the next message.
   */
  lemma {:induction false} WritesInOrder(c: Conn, envs: seq<StepEnv>)
    requires c.state == WriteMsgOnSocket && c.socketOpen
    requires AllFrames(c.mailbox) && |envs| >= |c.mailbox|
    requires forall i :: 0 <= i < |envs| ==> envs[i].write == WriteAll
    ensures MailOk(c.mailbox)
    ensures Loop(c, envs) == RunResult(c.(mailbox := [], wire := c.wire + Concat(Payloads(c.mailbox))), Blocked)
    decreases |c.mailbox|
  {
    if |c.mailbox| == 0 {
      assert Concat(Payloads(c.mailbox)) == [];
      assert c.wire + [] == c.wire;
    } else {
      var f := c.mailbox[0].data;
      var next := c.(mailbox := c.mailbox[1..], wire := c.wire + f);
      WriteHead(c, envs[0]);
      LoopUnfold(c, envs);
      WritesInOrder(next, envs[1..]);
      assert Payloads(c.mailbox) == [f] + Payloads(c.mailbox[1..]);
      assert Concat(Payloads(c.mailbox)) == f + Concat(Payloads(c.mailbox[1..]));
      assert c.wire + f + Concat(Payloads(c.mailbox[1..])) == c.wire + Concat(Payloads(c.mailbox));
    }
  }

  /** A full write of the frame at the head of the mailbox puts it on the wire and consumes it. */
  lemma WriteHead(c: Conn, env: StepEnv)
    requires c.state == WriteMsgOnSocket && c.socketOpen && |c.mailbox| > 0
    requires MailOk(c.mailbox) && c.mailbox[0].event == WriteRequest && WellFormed(c.mailbox[0].data) && env.write == WriteAll
    ensures Next(c, env) == Outcome(c.(mailbox := c.mailbox[1..], wire := c.wire + c.mailbox[0].data), true)
  {
  }

  /**
   * Recovery: a broken pipe while writing leads, through DISCONNECTION, to
   * the data socket being closed, a new client being accepted and the
   * postman writing again, with the dispatcher set to read the new client.
   * A broken pipe is a write that returns -1 with EPIPE, which presumes
   * SIGPIPE is ignored; the program itself never arranges that.
   */
  lemma RecoversFromBrokenPipe(c: Conn, f: seq<Byte>, peer: seq<Byte>, any: WriteOutcome, s0: SelectOutcome)
    requires c.state == WriteMsgOnSocket && c.socketOpen && c.mailbox == [MqMsg(WriteRequest, f)]
    requires WellFormed(f)
    ensures MailOk(c.mailbox)
    ensures Loop(c, [StepEnv(s0, WriteBrokenPipe), StepEnv(s0, any), StepEnv(ClientPending(true, peer), any), StepEnv(s0, any)])
         == RunResult(c.(mailbox := [], socketOpen := true, inbound := peer, reader := ReadingMsg, waiting := false), Blocked)
  {
    var es := [StepEnv(s0, WriteBrokenPipe), StepEnv(s0, any), StepEnv(ClientPending(true, peer), any), StepEnv(s0, any)];
    var c1 := c.(mailbox := [MqMsg(Disconnection, [])]);
    BrokenPipeStep(c, es[0]);
    assert c.mailbox[1..] + [MqMsg(Disconnection, [])] == c1.mailbox;
    LoopUnfold(c, es);
    var c2 := c.(mailbox := [MqMsg(PollConnection, [])], state := WaitingConnection, socketOpen := false, waiting := true);
    DisconnectStep(c1, es[1]);
    assert c1.mailbox[1..] + [MqMsg(PollConnection, [])] == c2.mailbox;
    LoopUnfold(c1, es[1..]);
    var c3 := c.(mailbox := [MqMsg(Connection, [])], state := WaitingConnection, socketOpen := true, inbound := peer, reader := ReadingMsg, waiting := false);
    AcceptStep(c2, es[2]);
    assert c2.mailbox[1..] + [MqMsg(Connection, [])] == c3.mailbox;
    LoopUnfold(c2, es[2..]);
    var c4 := c3.(mailbox := [], state := WriteMsgOnSocket);
    ConnectedStep(c3, es[3]);
    LoopUnfold(c3, es[3..]);
    assert es[1..][1..] == es[2..] && es[2..][1..] == es[3..] && es[3..][1..] == [];
  }

  /** A broken pipe while writing posts DISCONNECTION and changes nothing else. */
  lemma BrokenPipeStep(c: Conn, env: StepEnv)
    requires |c.mailbox| > 0 && MailOk(c.mailbox) && c.state == WriteMsgOnSocket && c.socketOpen
    requires c.mailbox[0].event == WriteRequest && env.write == WriteBrokenPipe
    ensures Next(c, env) == Outcome(c.(mailbox := c.mailbox[1..] + [MqMsg(Disconnection, [])]), true)
  {
  }

  /** DISCONNECTION while writing closes the socket and goes back to probing for a client. */
  lemma DisconnectStep(c: Conn, env: StepEnv)
    requires |c.mailbox| > 0 && MailOk(c.mailbox) && c.state == WriteMsgOnSocket && c.socketOpen
    requires c.mailbox[0].event == Disconnection
    ensures Next(c, env) == Outcome(c.(mailbox := c.mailbox[1..] + [MqMsg(PollConnection, [])],
                                       state := WaitingConnection, socketOpen := false, waiting := true), true)
  {
  }

  /** A probe that finds a client accepts it and lets the dispatcher read its bytes. */
  lemma AcceptStep(c: Conn, env: StepEnv)
    requires |c.mailbox| > 0 && MailOk(c.mailbox) && c.state == WaitingConnection
    requires c.mailbox[0].event == PollConnection && env.select.ClientPending? && env.select.acceptOk
    ensures Next(c, env) == Outcome(c.(mailbox := c.mailbox[1..] + [MqMsg(Connection, [])], socketOpen := true,
                                       inbound := env.select.peer, reader := ReadingMsg, waiting := false), true)
  {
  }

  /** CONNECTION while waiting moves the postman to writing. */
  lemma ConnectedStep(c: Conn, env: StepEnv)
    requires |c.mailbox| > 0 && MailOk(c.mailbox) && c.state == WaitingConnection
    requires c.mailbox[0].event == Connection
    ensures Next(c, env) == Outcome(c.(mailbox := c.mailbox[1..], state := WriteMsgOnSocket), true)
  {
  }

  /** One iteration of the loop that does not fail leaves the rest of the run to the loop. */
  lemma LoopUnfold(c: Conn, envs: seq<StepEnv>)
    requires MailOk(c.mailbox) && c.state != Death && |c.mailbox| > 0 && |envs| > 0
    requires Next(c, envs[0]).ok
    ensures Loop(c, envs) == Loop(Next(c, envs[0]).conn, envs[1..])
  {
  }

  // ------------------------------------------------------------ the object

  class Postman {
    var state: PState
    var mailbox: seq<MqMsg>
    var socketOpen: bool
    var waiting: bool
    var wire: seq<Byte>
    var inbound: seq<Byte>
    const gate: Gate

    function Abs(): Conn
      reads this, gate
    {
      Conn(state, mailbox, socketOpen, waiting, wire, inbound, gate.state)
    }

    /** POSTMAN_create: an empty mailbox, no client yet (queue and socket creation are not modelled). */
    constructor (gate: Gate)
      ensures this.gate == gate
      ensures state == WaitingConnection && mailbox == [] && !socketOpen && !waiting
      ensures wire == [] && inbound == []
    {
      this.gate := gate;
      state := WaitingConnection;
      mailbox := [];
      socketOpen := false;
      waiting := false;
      wire := [];
      inbound := [];
    }

    method Enqueue(m: MqMsg)
      modifies this
      ensures Abs() == old(Abs()).(mailbox := old(mailbox) + [m])
    {
      mailbox := mailbox + [m];
    }

    /** POSTMAN_send_request: post a write request carrying the frame. */
    method SendRequest(data: seq<Byte>)
      requires Sendable(data)
      modifies this
      ensures Abs() == old(Abs()).(mailbox := old(mailbox) + [MqMsg(WriteRequest, data)])
    {
      Enqueue(MqMsg(WriteRequest, data));
    }

    /** POSTMAN_disconnect: post DISCONNECTION. */
    method Disconnect()
      modifies this
      ensures Abs() == old(Abs()).(mailbox := old(mailbox) + [MqMsg(Disconnection, [])])
    {
      Enqueue(MqMsg(Disconnection, []));
    }

    /** POSTMAN_stop: post STOP (joining the thread and closing the sockets are not modelled). */
    method Stop()
      modifies this
      ensures Abs() == old(Abs()).(mailbox := old(mailbox) + [MqMsg(StopEvent, [])])
    {
      Enqueue(MqMsg(StopEvent, []));
    }

    /**
     * POSTMAN_read_request, called by the dispatcher's thread. When the
     * client has closed, the dispatcher is told to wait and DISCONNECTION
     * is posted.
     */
    method ReadRequest(fault: ReadFault) returns (r: ReadResult)
      requires Readable(inbound, socketOpen, fault)
      modifies this, gate
      ensures var st := ReadMsg(old(inbound), old(socketOpen), fault);
        r == st.result &&
        Abs() == AfterRead(old(Abs()), st)
    {
      var st := ReadMsg(inbound, socketOpen, fault);
      r := st.result;
      inbound := st.rest;
      if st.peerClosed {
        gate.Disconnect();
        Disconnect();
      }
    }

    method ActionPolling(sel: SelectOutcome) returns (ok: bool)
      modifies this, gate
      ensures Outcome(Abs(), ok) == PollingAction(old(Abs()), sel)
    {
      match sel
      case SelectFailed =>
        ok := false;
      case SelectTimeout =>
        Enqueue(MqMsg(PollConnection, []));
        ok := true;
      case ClientPending(acceptOk, peer) =>
        if !acceptOk {
          socketOpen := false;
          ok := false;
        } else {
          socketOpen := true;
          inbound := peer;
          Enqueue(MqMsg(Connection, []));
          gate.StartReading();
          waiting := false;
          ok := true;
        }
    }

    method ActionSend(data: seq<Byte>, w: WriteOutcome) returns (ok: bool)
      requires Sendable(data)
      modifies this
      ensures Outcome(Abs(), ok) == SendAction(old(Abs()), data, w)
    {
      if !socketOpen {
        ok := false;
      } else if w == WriteError {
        ok := false;
      } else if w == WriteBrokenPipe {
        Enqueue(MqMsg(Disconnection, []));
        ok := true;
      } else {
        wire := wire + data[..FrameLength(data)];
        ok := true;
      }
    }

    method ActionDisconnection() returns (ok: bool)
      modifies this
      ensures Outcome(Abs(), ok) == DisconnectAction(old(Abs()))
    {
      if !socketOpen {
        ok := false;
      } else {
        socketOpen := false;
        Enqueue(MqMsg(PollConnection, []));
        waiting := true;
        ok := true;
      }
    }

    /** One iteration of the loop of POSTMAN_run. */
    method Step(env: StepEnv) returns (ok: bool)
      requires |mailbox| > 0 && MailOk(mailbox)
      modifies this, gate
      ensures Outcome(Abs(), ok) == Next(old(Abs()), env)
    {
      var m := mailbox[0];
      mailbox := mailbox[1..];
      ghost var rest := Abs();
      var tr := Table(state, m.event);
      if tr.destination == Forget {
        return true;
      }
      match tr.action {
        case Nop => ok := true;
        case Connected => ok := true;
        case StopAction => ok := true;
        case ConnectionPolling => ok := ActionPolling(env.select);
        case Send => ok := ActionSend(m.data, env.write);
        case Disconnect => ok := ActionDisconnection();
      }
      assert Outcome(Abs(), ok) == Perform(rest, tr.action, m.data, env);
      if ok {
        state := tr.destination;
      }
    }

    /** POSTMAN_run: the prologue, then iterations until S_DEATH or until the model stops. */
    method Run(first: SelectOutcome, envs: seq<StepEnv>) returns (end: RunEnd)
      requires MailOk(mailbox)
      modifies this, gate
      ensures var b := Begin(old(Abs()), first);
        RunResult(Abs(), end) == if b.ok then Loop(b.conn, envs) else RunResult(b.conn, ActionFailed)
    {
      state := WaitingConnection;
      var ok := ActionPolling(first);
      if !ok {
        return ActionFailed;
      }
      assert MailOk(mailbox) by {
        assert forall i :: 0 <= i < |old(mailbox)| ==> mailbox[i] == old(mailbox)[i];
      }
      var i := 0;
      while state != Death
        invariant 0 <= i <= |envs| && MailOk(mailbox)
        invariant Loop(Abs(), envs[i..]) == Loop(Begin(old(Abs()), first).conn, envs)
        decreases |envs| - i
      {
        if |mailbox| == 0 {
          return Blocked;
        }
        if i == |envs| {
          return OutOfInputs;
        }
        ok := Step(envs[i]);
        if !ok {
          return ActionFailed;
        }
        assert envs[i..][1..] == envs[i + 1..];
        i := i + 1;
      }
      return Died;
    }
  }
}
