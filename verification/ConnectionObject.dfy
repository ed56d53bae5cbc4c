/** The connection object: its handlers, each run whole under the connection's lock. */
module ConnectionObject {
  import opened ConnectionSteps

  class Connection {
    var m_closeState: CloseState
    var m_pendingRead: int
    var m_pendingWrite: int
    var m_outputQueue: seq<nat>
    var m_writeError: bool
    var m_readError: bool
    var m_socketClosed: bool
    var m_protocol: bool

    // What the connection has asked of the socket, the scheduler and the dispatcher.
    ghost var headers: nat
    ghost var bodies: nat
    ghost var writing: seq<nat>
    ghost var closeTasks: nat
    ghost var deletions: nat
    ghost var protocols: nat
    ghost var protocolDeletions: nat
    ghost var accepted: seq<nat>
    ghost var handed: seq<nat>
    ghost var written: seq<nat>

    ghost function State(): Conn
      reads this
    {
      Conn(m_closeState, m_pendingRead, m_pendingWrite, m_outputQueue, m_writeError, m_readError, m_socketClosed,
           m_protocol, headers, bodies, writing, closeTasks, deletions, protocols, protocolDeletions, accepted, handed,
           written)
    }

    constructor ()
      ensures Fresh(State())
    {
      m_closeState := CLOSE_STATE_NONE;
      m_pendingRead, m_pendingWrite, m_outputQueue := 0, 0, [];
      m_writeError, m_readError, m_socketClosed, m_protocol := false, false, false, false;
      headers, bodies, writing := 0, 0, [];
      closeTasks, deletions, protocols, protocolDeletions := 0, 0, 0, 0;
      accepted, handed, written := [], [], [];
    }

    method CloseConnection()
      modifies this
      ensures State() == Closed(old(State()))
    {
      if m_closeState != CLOSE_STATE_NONE { return; }
      m_closeState := CLOSE_STATE_REQUESTED;
      closeTasks := closeTasks + 1;
    }

    method ClosingConnection() returns (gone: bool)
      modifies this
      ensures State() == Closing(old(State()))
      ensures gone <==> deletions > old(deletions)
    {
      gone := false;
      if m_pendingWrite == 0 || m_writeError {
        if !m_socketClosed { m_socketClosed := true; }
        if m_pendingRead == 0 {
          deletions := deletions + 1;
          gone := true;
        }
      }
    }

    method CloseConnectionTask()
      requires closeTasks > 0
      modifies this
      ensures State() == ClosedByTask(old(State()))
    {
      hide Closing;
      closeTasks := closeTasks - 1;
      if m_closeState != CLOSE_STATE_REQUESTED { return; }
      m_closeState := CLOSE_STATE_CLOSING;
      if m_protocol {
        protocolDeletions := protocolDeletions + 1;
        m_protocol := false;
      }
      var _ := ClosingConnection();
    }

    method AcceptConnection()
      modifies this
      ensures State() == ReadHeader(old(State()))
    {
      headers := headers + 1;
      m_pendingRead := m_pendingRead + 1;
    }

    method HandleReadError(error: Error)
      modifies this
      ensures State() == ReadFailed(old(State()), error)
    {
      match error {
        case OperationAborted =>
        case Eof => CloseConnection();
        case ConnectionReset => CloseConnection();
        case ConnectionAborted => CloseConnection();
        case _ => CloseConnection();
      }
      m_readError := true;
    }

    method ParseHeader(error: Error, size: int)
      requires headers > 0
      modifies this
      ensures State() == HeaderDone(old(State()), error, size)
    {
      hide Closing, ReadFailed;
      headers := headers - 1;
      m_pendingRead := m_pendingRead - 1;
      if m_closeState == CLOSE_STATE_CLOSING {
        var _ := ClosingConnection();
        return;
      }
      if error == NoError && size > 0 && size < NETWORKMESSAGE_MAXSIZE - 16 {
        bodies := bodies + 1;
        m_pendingRead := m_pendingRead + 1;
      } else {
        HandleReadError(error);
      }
    }

    method InternalSend(msg: nat)
      modifies this
      ensures State() == InternalSent(old(State()), msg)
    {
      writing, handed := writing + [msg], handed + [msg];
      m_pendingWrite := m_pendingWrite + 1;
    }

    method SendMessage(msg: nat) returns (ok: bool)
      modifies this
      ensures State() == Sent(old(State()), msg)
      ensures ok <==> accepted == old(accepted) + [msg]
    {
      if m_closeState == CLOSE_STATE_CLOSING || m_writeError {
        assert |accepted + [msg]| > |accepted|;
        return false;
      }
      accepted := accepted + [msg];
      if m_pendingWrite == 0 {
        InternalSend(msg);
      } else {
        m_outputQueue := m_outputQueue + [msg];
      }
      ok := true;
    }

    /** The protocol at work on a packet: onRecvFirstMessage or onRecvMessage. */
    method Receive(calls: seq<Call>)
      modifies this
      ensures State() == Called(old(State()), calls)
    {
      ghost var s := State();
      for i := 0 to |calls|
        invariant Called(State(), calls[i..]) == Called(s, calls)
      {
        assert calls[i..][0] == calls[i] && calls[i..][1..] == calls[i + 1..];
        match calls[i] {
          case Close => CloseConnection();
          case Send(msg) => var _ := SendMessage(msg);
        }
      }
    }

    /** Protocol selection by the first byte of the first packet. */
    method SelectProtocol(protocolId: nat) returns (known: bool)
      modifies this
      ensures known <==> ValidProtocol(protocolId)
      ensures State() ==
        if known then old(State()).(protocol := true, protocols := old(protocols) + 1) else old(State())
    {
      match protocolId {
        case 0x01 => m_protocol := true;
        case 0x0A => m_protocol := true;
        case 0xFE => m_protocol := true;
        case 0xFF => m_protocol := true;
        case _ => return false;
      }
      protocols := protocols + 1;
      known := true;
    }

    method ParsePacket(error: Error, protocolId: nat, calls: seq<Call>)
      requires bodies > 0
      modifies this
      ensures State() == PacketDone(old(State()), error, protocolId, calls)
    {
      hide Closing, ReadFailed, PacketHandled;
      bodies := bodies - 1;
      m_pendingRead := m_pendingRead - 1;
      if m_closeState == CLOSE_STATE_CLOSING {
        var _ := ClosingConnection();
        return;
      }
      if error == NoError {
        HandlePacket(protocolId, calls);
      } else {
        HandleReadError(error);
      }
    }

    /** The part of parsePacket for a packet that has been read. */
    method HandlePacket(protocolId: nat, calls: seq<Call>)
      modifies this
      ensures State() == PacketHandled(old(State()), protocolId, calls)
    {
      hide Closed, Called, ValidProtocol;
      if !m_protocol {
        var known := SelectProtocol(protocolId);
        if !known {
          CloseConnection();
          return;
        }
      }
      Receive(calls);
      headers := headers + 1;
      m_pendingRead := m_pendingRead + 1;
    }

    method HandleWriteError(error: Error)
      modifies this
      ensures State() == WriteFailed(old(State()), error)
    {
      match error {
        case OperationAborted =>
        case Eof => CloseConnection();
        case ConnectionReset => CloseConnection();
        case ConnectionAborted => CloseConnection();
        case _ => CloseConnection();
      }
      m_writeError := true;
    }

    method SendNext()
      modifies this
      ensures State() == NextSent(old(State()))
    {
      if m_pendingWrite > 0 {
        m_pendingWrite := m_pendingWrite - 1;
        if |m_outputQueue| != 0 {
          var next := m_outputQueue[0];
          m_outputQueue := m_outputQueue[1..];
          InternalSend(next);
        }
      }
    }

    method OnWriteOperation(error: Error)
      requires writing != []
      modifies this
      ensures State() == WriteDone(old(State()), error)
    {
      hide Closing, WriteFailed, NextSent;
      ghost var msg := writing[0];
      writing := writing[1..];
      if error == NoError {
        written := written + [msg];
        SendNext();
      } else {
        HandleWriteError(error);
      }
      if m_closeState == CLOSE_STATE_CLOSING {
        var _ := ClosingConnection();
      }
    }

    /** One thing that happens to the connection. */
    method Happen(e: Event)
      requires Enabled(State(), e)
      modifies this
      ensures State() == Step(old(State()), e)
    {
      match e {
        case Accept => AcceptConnection();
        case CloseConnection => CloseConnection();
        case CloseTask => CloseConnectionTask();
        case HeaderRead(error, size) => ParseHeader(error, size);
        case PacketRead(error, protocolId, calls) => ParsePacket(error, protocolId, calls);
        case SendMessage(msg) => var _ := SendMessage(msg);
        case Written(error) => OnWriteOperation(error);
      }
    }
  }
}
