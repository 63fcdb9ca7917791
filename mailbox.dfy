/*
 * What the two postmen (Carto/src/com/postman.c, Cute/client_tcp/postman.cpp)
 * share: the states, events and mailbox messages of their state machines,
 * the outcomes of the socket calls they make, and the reading of one
 * length-prefixed frame from the TCP stream (POSTMAN_read_msg, identical on
 * both sides).
 */
module Mailbox {
  import opened Protocol
  import opened Codec

  /** States of a postman; S_FORGET is the "no transition" marker of the table. */
  datatype PState = Forget | WaitingConnection | WriteMsgOnSocket | Death

  /** Events carried by mailbox messages. */
  datatype Event = Connection | WriteRequest | Disconnection | PollConnection | StopEvent

  /** A mailbox message: the event and, for a write request, the frame to send (empty otherwise). */
  datatype MqMsg = MqMsg(event: Event, data: seq<Byte>)

  /** Outcome of write() on the data socket. */
  datatype WriteOutcome =
    | WriteAll       // every byte was accepted
    | WriteBrokenPipe // -1 with errno EPIPE: the peer has gone (presumes SIGPIPE is ignored)
    | WriteError     // -1 with any other errno

  /** A buffer the send action can transmit: its size bytes announce no more than it holds. */
  predicate Sendable(buf: seq<Byte>)
  {
    |buf| >= 2 && FrameLength(buf) <= |buf|
  }

  /** The bytes the send action writes for a buffer. */
  function Transmitted(buf: seq<Byte>): (w: seq<Byte>)
    requires Sendable(buf)
    ensures WellFormed(buf) ==> w == buf
    ensures 2 <= |w| <= |buf| && w == buf[..|w|]
  {
    buf[..FrameLength(buf)]
  }

  /** Number of connection probes (poll or connection events) waiting in a mailbox. */
  function Probes(mb: seq<MqMsg>): (n: nat)
    ensures n <= |mb|
  {
    if |mb| == 0 then 0
    else (if mb[0].event in {PollConnection, Connection} then 1 else 0) + Probes(mb[1..])
  }

  lemma {:induction false} ProbesAppend(a: seq<MqMsg>, b: seq<MqMsg>)
    ensures Probes(a + b) == Probes(a) + Probes(b)
  {
    if |a| == 0 {
      assert a + b == b;
    } else {
      assert (a + b)[1..] == a[1..] + b;
      ProbesAppend(a[1..], b);
    }
  }

  /** Every write request in the mailbox carries a buffer the send action can transmit. */
  predicate MailOk(mb: seq<MqMsg>)
  {
    forall i :: 0 <= i < |mb| ==> mb[i].event == WriteRequest ==> Sendable(mb[i].data)
  }

  /** Some CONNECTION event is waiting in the mailbox. */
  predicate HasConnection(mb: seq<MqMsg>)
  {
    exists i :: 0 <= i < |mb| && mb[i].event == Connection
  }

  /** A mailbox with no probe holds no CONNECTION. */
  lemma {:induction false} NoProbeNoConnection(mb: seq<MqMsg>)
    requires Probes(mb) == 0
    ensures !HasConnection(mb)
  {
    if |mb| > 0 {
      NoProbeNoConnection(mb[1..]);
      forall i | 0 <= i < |mb|
        ensures mb[i].event != Connection
      {
        if i > 0 {
          assert mb[i] == mb[1..][i - 1];
        }
      }
    }
  }

  /** How appending one message changes the counts the invariant speaks of. */
  lemma AppendOne(mb: seq<MqMsg>, m: MqMsg)
    ensures Probes(mb + [m]) == Probes(mb) + (if m.event in {PollConnection, Connection} then 1 else 0)
    ensures HasConnection(mb + [m]) <==> HasConnection(mb) || m.event == Connection
    ensures MailOk(mb + [m]) <==> MailOk(mb) && (m.event == WriteRequest ==> Sendable(m.data))
  {
    ProbesAppend(mb, [m]);
    var mb' := mb + [m];
    if HasConnection(mb') {
      var i :| 0 <= i < |mb'| && mb'[i].event == Connection;
      if i < |mb| {
        assert mb[i] == mb'[i];
      }
    }
    if HasConnection(mb) {
      var i :| 0 <= i < |mb| && mb[i].event == Connection;
      assert mb'[i] == mb[i];
    }
    assert mb'[|mb|] == m;
    if MailOk(mb') {
      forall i | 0 <= i < |mb| && mb[i].event == WriteRequest
        ensures Sendable(mb[i].data)
      {
        assert mb'[i] == mb[i];
      }
    }
    if MailOk(mb) && (m.event == WriteRequest ==> Sendable(m.data)) {
      forall i | 0 <= i < |mb'| && mb'[i].event == WriteRequest
        ensures Sendable(mb'[i].data)
      {
        if i < |mb| {
          assert mb'[i] == mb[i];
        }
      }
    }
  }

  /** How removing the oldest message changes the counts the invariant speaks of. */
  lemma DropFirst(mb: seq<MqMsg>)
    requires |mb| > 0
    ensures Probes(mb) == Probes(mb[1..]) + (if mb[0].event in {PollConnection, Connection} then 1 else 0)
    ensures HasConnection(mb[1..]) ==> HasConnection(mb)
    ensures MailOk(mb) ==> MailOk(mb[1..])
  {
    if HasConnection(mb[1..]) {
      var i :| 0 <= i < |mb[1..]| && mb[1..][i].event == Connection;
      assert mb[i + 1] == mb[1..][i];
    }
    if MailOk(mb) {
      forall i | 0 <= i < |mb[1..]| && mb[1..][i].event == WriteRequest
        ensures Sendable(mb[1..][i].data)
      {
        assert mb[1..][i] == mb[i + 1];
      }
    }
  }

  // ------------------------------------------------------------ reading

  /** Failures of read() other than a closed descriptor. */
  datatype ReadFault =
    | NoFault
    | SizeReadError  // the read of the two size bytes returns -1 with errno other than EBADF
    | BodyReadError  // the read of the body returns -1

  /** What POSTMAN_read_msg hands to the dispatcher: NULL or a buffer. */
  datatype ReadResult = NullBuffer | Buffer(bytes: seq<Byte>)

  /** One read: the result, the stream left unread, and whether the peer was seen to close. */
  datatype ReadStep = ReadStep(result: ReadResult, rest: seq<Byte>, peerClosed: bool)

  /** A call of POSTMAN_read_msg can be modelled: read() never returns a single size byte. */
  predicate Readable(inbound: seq<Byte>, fdOpen: bool, fault: ReadFault)
  {
    fdOpen && fault != SizeReadError ==> |inbound| != 1
  }

  /**
   * POSTMAN_read_msg on a stream whose unread bytes are `inbound`.
   * A closed descriptor yields the one-byte buffer holding EBADF; a failed
   * read yields NULL; end of stream yields NULL and reports the peer gone.
   * Otherwise the two size bytes are read, then up to `size` more bytes:
   * a size of at least 2 returns the size bytes and the body, a smaller size
   * returns the size bytes alone.
   */
  function ReadMsg(inbound: seq<Byte>, fdOpen: bool, fault: ReadFault): (st: ReadStep)
    requires Readable(inbound, fdOpen, fault)
    ensures st.result == Buffer([EBADF]) <==> !fdOpen
    ensures st.peerClosed <==> (fdOpen && fault != SizeReadError && |inbound| == 0)
    ensures |st.rest| <= |inbound| && st.rest == inbound[|inbound| - |st.rest|..]
    ensures fdOpen && st.result.Buffer? ==>
              2 <= |st.result.bytes| <= |inbound| - |st.rest| && st.result.bytes == inbound[..|st.result.bytes|]
    ensures st.result == NullBuffer <==> fdOpen && (fault != NoFault || |inbound| == 0)
  {
    if !fdOpen then
      ReadStep(Buffer([EBADF]), inbound, false)
    else if fault == SizeReadError then
      ReadStep(NullBuffer, inbound, false)
    else if |inbound| == 0 then
      ReadStep(NullBuffer, [], true)
    else
      var size := Be16(inbound[0], inbound[1]);
      var got := if size <= |inbound| - 2 then size else |inbound| - 2;
      if fault == BodyReadError then ReadStep(NullBuffer, inbound[2..], false)
      else if size >= 2 then ReadStep(Buffer(inbound[..2 + got]), inbound[2 + got..], false)
      else ReadStep(Buffer(inbound[..2]), inbound[2 + got..], false)
  }

  /** A frame at the head of the stream is read back whole, and nothing after it is touched. */
  lemma ReadsWholeFrame(f: seq<Byte>, rest: seq<Byte>)
    requires WellFormed(f)
    ensures Readable(f + rest, true, NoFault)
    ensures ReadMsg(f + rest, true, NoFault) == ReadStep(Buffer(f), rest, false)
  {
    var s := f + rest;
    assert s[0] == f[0] && s[1] == f[1];
    assert s[..|f|] == f;
    assert s[|f|..] == rest;
  }

  /** The bytes of a sequence of frames, one after the other. */
  function Concat(fs: seq<seq<Byte>>): (s: seq<Byte>)
  {
    if |fs| == 0 then [] else fs[0] + Concat(fs[1..])
  }

  /** A stream that is a sequence of complete frames. */
  predicate Framed(s: seq<Byte>)
    decreases |s|
  {
    |s| == 0 || (|s| >= 4 && FrameLength(s) <= |s| && WellFormed(s[..FrameLength(s)]) && Framed(s[FrameLength(s)..]))
  }

  /** Successive fault-free reads on an open socket until the peer is seen to close. */
  function ReadUntilClosed(s: seq<Byte>): (rs: seq<ReadResult>)
    requires Framed(s)
    decreases |s|
  {
    if |s| == 0 then []
    else
      var f := s[..FrameLength(s)];
      assert s == f + s[FrameLength(s)..];
      ReadsWholeFrame(f, s[FrameLength(s)..]);
      [ReadMsg(s, true, NoFault).result] + ReadUntilClosed(ReadMsg(s, true, NoFault).rest)
  }

  /** The buffers handed to the dispatcher for a sequence of frames. */
  function Buffers(fs: seq<seq<Byte>>): (rs: seq<ReadResult>)
    ensures |rs| == |fs| && forall i :: 0 <= i < |fs| ==> rs[i] == Buffer(fs[i])
  {
    if |fs| == 0 then [] else [Buffer(fs[0])] + Buffers(fs[1..])
  }

  /**
   * Reassembly: whatever the writer's frames, a reader that reads their
   * concatenation until the peer closes gets back exactly those frames, in
   * order, one per read.
   */
  lemma {:induction false} ReassemblesFrames(fs: seq<seq<Byte>>)
    requires forall i :: 0 <= i < |fs| ==> WellFormed(fs[i])
    ensures Framed(Concat(fs))
    ensures ReadUntilClosed(Concat(fs)) == Buffers(fs)
  {
    if |fs| > 0 {
      var s := Concat(fs);
      ReassemblesFrames(fs[1..]);
      ReadsWholeFrame(fs[0], Concat(fs[1..]));
      assert s[..|fs[0]|] == fs[0];
      assert s[|fs[0]|..] == Concat(fs[1..]);
      assert s[0] == fs[0][0] && s[1] == fs[0][1];
      assert FrameLength(s) == |fs[0]|;
    }
  }
}
