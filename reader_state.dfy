/*
 * The state variable of a dispatcher and its setters. The dispatcher's
 * reading loop only reads from the socket in S_READING_MSG; the postman
 * switches it to reading when a connection is made and to waiting when the
 * peer goes away. Both endpoints use the same four states and setters
 * (Carto/src/com/dispatcher.c, Cute/client_tcp/dispatcher.cpp); the state
 * is held in an object that the dispatcher and the postman share.
 */
module ReaderState {

  datatype DState = Idle | ReadingMsg | Stop | WaitingReconnection

  class Gate {
    var state: DState

    /** The static variable starts at its zero value, S_IDLE. */
    constructor ()
      ensures state == Idle
    {
      state := Idle;
    }

    /** DISPATCHER_start: back to idle (the thread creation is not modelled). */
    method Start()
      modifies this
      ensures state == Idle
    {
      state := Idle;
    }

    /** DISPATCHER_start_reading: a connection exists, read from it. */
    method StartReading()
      modifies this
      ensures state == ReadingMsg
    {
      state := ReadingMsg;
    }

    /** DISPATCHER_disconnect: the peer is gone, stop reading until reconnection. */
    method Disconnect()
      modifies this
      ensures state == WaitingReconnection
    {
      state := WaitingReconnection;
    }

    /** DISPATCHER_stop: the reading loop ends at its next test (the join is not modelled). */
    method Stop()
      modifies this
      ensures state == DState.Stop
    {
      state := DState.Stop;
    }
  }
}
