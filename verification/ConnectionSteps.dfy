/** Connection: what each handler does to a connection and to the operations the connection has under way. */
module ConnectionSteps {
  datatype CloseState = CLOSE_STATE_NONE | CLOSE_STATE_REQUESTED | CLOSE_STATE_CLOSING

  datatype Error = NoError | OperationAborted | Eof | ConnectionReset | ConnectionAborted | Other(code: nat)

  const NETWORKMESSAGE_MAXSIZE := 15360

  /**
   * The fields of a connection, and what is around it: reads and writes under way, tasks posted, and the messages
   * accepted by send, handed to async_write, and written without error.
   */
  datatype Conn = Conn(
    closeState: CloseState, pendingRead: int, pendingWrite: int, queue: seq<nat>,
    writeError: bool, readError: bool, socketClosed: bool, protocol: bool,
    headers: nat, bodies: nat, writing: seq<nat>,
    closeTasks: nat, deletions: nat, protocols: nat, protocolDeletions: nat,
    accepted: seq<nat>, handed: seq<nat>, written: seq<nat>)

  /** As the constructor leaves it. */
  predicate Fresh(s: Conn) {
    && s.closeState.CLOSE_STATE_NONE? && s.pendingRead == s.pendingWrite == 0 && s.queue == []
    && !s.writeError && !s.readError && !s.socketClosed && !s.protocol
    && s.headers == s.bodies == 0 && s.writing == []
    && s.closeTasks == s.deletions == s.protocols == s.protocolDeletions == 0
    && s.accepted == s.handed == s.written == []
  }

  /** What a protocol may do to its connection while it handles a packet. */
  datatype Call = Close | Send(msg: nat)

  datatype Event =
    | Accept
    | CloseConnection
    | CloseTask
    | HeaderRead(error: Error, size: int)
    | PacketRead(error: Error, protocolId: nat, calls: seq<Call>)
    | SendMessage(msg: nat)
    | Written(error: Error)

  predicate Enabled(s: Conn, e: Event) {
    match e
    case Accept => !s.closeState.CLOSE_STATE_CLOSING?
    case CloseConnection => true
    case CloseTask => s.closeTasks > 0
    case HeaderRead(_, _) => s.headers > 0
    case PacketRead(_, _, _) => s.bodies > 0
    case SendMessage(_) => true
    case Written(_) => s.writing != []
  }

  // ---------------------------------------------------------------- the handlers

  function ReadHeader(s: Conn): Conn {
    s.(pendingRead := s.pendingRead + 1, headers := s.headers + 1)
  }

  function ReadBody(s: Conn): Conn {
    s.(pendingRead := s.pendingRead + 1, bodies := s.bodies + 1)
  }

  function Closed(s: Conn): Conn {
    if !s.closeState.CLOSE_STATE_NONE? then s
    else s.(closeState := CLOSE_STATE_REQUESTED, closeTasks := s.closeTasks + 1)
  }

  /** closingConnection */
  function Closing(s: Conn): Conn {
    if s.pendingWrite == 0 || s.writeError then
      var t := s.(socketClosed := true);
      if s.pendingRead == 0 then t.(deletions := s.deletions + 1) else t
    else s
  }

  function ClosedByTask(s: Conn): Conn
    requires s.closeTasks > 0
  {
    var t := s.(closeTasks := s.closeTasks - 1);
    if !s.closeState.CLOSE_STATE_REQUESTED? then t
    else
      var u := t.(closeState := CLOSE_STATE_CLOSING, protocol := false,
                  protocolDeletions := t.protocolDeletions + if t.protocol then 1 else 0);
      Closing(u)
  }

  function ReadFailed(s: Conn, error: Error): Conn {
    (if error.OperationAborted? then s else Closed(s)).(readError := true)
  }

  function HeaderDone(s: Conn, error: Error, size: int): Conn
    requires s.headers > 0
  {
    var t := s.(pendingRead := s.pendingRead - 1, headers := s.headers - 1);
    if t.closeState.CLOSE_STATE_CLOSING? then Closing(t)
    else if error.NoError? && 0 < size < NETWORKMESSAGE_MAXSIZE - 16 then ReadBody(t)
    else ReadFailed(t, error)
  }

  function InternalSent(s: Conn, msg: nat): Conn {
    s.(pendingWrite := s.pendingWrite + 1, writing := s.writing + [msg], handed := s.handed + [msg])
  }

  predicate Refuses(s: Conn) {
    s.closeState.CLOSE_STATE_CLOSING? || s.writeError
  }

  function Sent(s: Conn, msg: nat): Conn {
    if Refuses(s) then s
    else
      var t := s.(accepted := s.accepted + [msg]);
      if s.pendingWrite == 0 then InternalSent(t, msg) else t.(queue := s.queue + [msg])
  }

  function CalledOnce(s: Conn, call: Call): Conn {
    match call
    case Close => Closed(s)
    case Send(msg) => Sent(s, msg)
  }

  function Called(s: Conn, calls: seq<Call>): Conn
    decreases |calls|
  {
    if calls == [] then s else Called(CalledOnce(s, calls[0]), calls[1..])
  }

  predicate ValidProtocol(id: nat) {
    id == 0x01 || id == 0x0A || id == 0xFE || id == 0xFF
  }

  /** The first packet chooses the protocol, and every packet is the protocol's. */
  function PacketHandled(s: Conn, protocolId: nat, calls: seq<Call>): Conn {
    if !s.protocol && !ValidProtocol(protocolId) then Closed(s)
    else
      var t := if s.protocol then s else s.(protocol := true, protocols := s.protocols + 1);
      ReadHeader(Called(t, calls))
  }

  function PacketDone(s: Conn, error: Error, protocolId: nat, calls: seq<Call>): Conn
    requires s.bodies > 0
  {
    var t := s.(pendingRead := s.pendingRead - 1, bodies := s.bodies - 1);
    if t.closeState.CLOSE_STATE_CLOSING? then Closing(t)
    else if !error.NoError? then ReadFailed(t, error)
    else PacketHandled(t, protocolId, calls)
  }

  function WriteFailed(s: Conn, error: Error): Conn {
    (if error.OperationAborted? then s else Closed(s)).(writeError := true)
  }

  /** After a message has been written: on to the next one. */
  function NextSent(s: Conn): Conn {
    if s.pendingWrite > 0 then
      var t := s.(pendingWrite := s.pendingWrite - 1);
      if t.queue != [] then InternalSent(t.(queue := t.queue[1..]), t.queue[0]) else t
    else s
  }

  function WriteDone(s: Conn, error: Error): Conn
    requires s.writing != []
  {
    var t := s.(writing := s.writing[1..]);
    var u :=
      if error.NoError? then NextSent(t.(written := s.written + [s.writing[0]]))
      else WriteFailed(t, error);
    if u.closeState.CLOSE_STATE_CLOSING? then Closing(u) else u
  }

  function Step(s: Conn, e: Event): Conn
    requires Enabled(s, e)
  {
    match e
    case Accept => ReadHeader(s)
    case CloseConnection => Closed(s)
    case CloseTask => ClosedByTask(s)
    case HeaderRead(error, size) => HeaderDone(s, error, size)
    case PacketRead(error, id, calls) => PacketDone(s, error, id, calls)
    case SendMessage(msg) => Sent(s, msg)
    case Written(error) => WriteDone(s, error)
  }

  // ---------------------------------------------------------------- what every step keeps

  /** Nothing that could call a handler is under way. */
  predicate Idle(s: Conn) {
    s.headers + s.bodies == 0 && s.writing == []
  }

  predicate Counted(s: Conn) {
    && s.pendingRead == s.headers + s.bodies
    && |s.writing| == (if s.writeError then 0 else s.pendingWrite)
    && 0 <= s.pendingWrite <= 1 && (s.writeError ==> s.pendingWrite == 1)
    && (s.queue != [] ==> s.pendingWrite == 1)
  }

  predicate Posted(s: Conn) {
    && s.closeTasks == (if s.closeState.CLOSE_STATE_REQUESTED? then 1 else 0)
    && s.deletions == (if s.closeState.CLOSE_STATE_CLOSING? && Idle(s) then 1 else 0)
    && (s.socketClosed <==> s.closeState.CLOSE_STATE_CLOSING? && s.writing == [])
    && s.protocols == s.protocolDeletions + (if s.protocol then 1 else 0) <= 1
    && (if s.closeState.CLOSE_STATE_CLOSING? then !s.protocol else s.protocolDeletions == 0)
  }

  /** Messages leave in the order they were accepted; with an error, one that was handed over is lost. */
  predicate InOrder(s: Conn) {
    && s.accepted == s.handed + s.queue
    && s.written + s.writing <= s.handed
    && |s.handed| == |s.written| + (if s.writeError then 1 else |s.writing|)
  }

  predicate Inv(s: Conn) {
    Counted(s) && Posted(s) && InOrder(s)
  }

  lemma ClosedKeeps(s: Conn)
    requires Inv(s)
    ensures Inv(Closed(s))
  {
  }

  lemma SentKeeps(s: Conn, msg: nat)
    requires Inv(s)
    ensures Inv(Sent(s, msg))
  {
  }

  lemma CloseTaskKeeps(s: Conn)
    requires Inv(s) && s.closeTasks > 0
    ensures Inv(ClosedByTask(s))
  {
  }

  /** A read has come back. */
  lemma ReadTaken(s: Conn, t: Conn)
    requires Inv(s) && s.headers + s.bodies > 0
    requires t == s.(pendingRead := s.pendingRead - 1, headers := t.headers, bodies := t.bodies)
    requires t.headers + t.bodies == s.headers + s.bodies - 1
    ensures if t.closeState.CLOSE_STATE_CLOSING? then Inv(Closing(t)) else Inv(t)
  {
  }

  lemma ReadKeeps(s: Conn)
    requires Inv(s) && !s.closeState.CLOSE_STATE_CLOSING?
    ensures Inv(ReadHeader(s)) && Inv(ReadBody(s))
  {
  }

  lemma ReadFailedKeeps(s: Conn, error: Error)
    requires Inv(s)
    ensures Inv(ReadFailed(s, error))
  {
  }

  lemma HeaderKeeps(s: Conn, error: Error, size: int)
    requires Inv(s) && s.headers > 0
    ensures Inv(HeaderDone(s, error, size))
  {
    hide Inv, Closing, ReadBody, ReadFailed;
    var t := s.(pendingRead := s.pendingRead - 1, headers := s.headers - 1);
    ReadTaken(s, t);
    if !t.closeState.CLOSE_STATE_CLOSING? {
      ReadKeeps(t);
      ReadFailedKeeps(t, error);
    }
  }

  lemma {:induction false} CalledKeeps(s: Conn, calls: seq<Call>)
    requires Inv(s) && !s.closeState.CLOSE_STATE_CLOSING?
    ensures var t := Called(s, calls);
      Inv(t) && !t.closeState.CLOSE_STATE_CLOSING? && t.headers == s.headers && t.bodies == s.bodies
    decreases |calls|
  {
    if calls != [] {
      if calls[0].Send? { SentKeeps(s, calls[0].msg); }
      CalledKeeps(CalledOnce(s, calls[0]), calls[1..]);
    }
  }

  lemma ProtocolKeeps(t: Conn)
    requires Inv(t) && !t.closeState.CLOSE_STATE_CLOSING? && !t.protocol
    ensures Inv(t.(protocol := true, protocols := t.protocols + 1))
  {
  }

  lemma PacketKeeps(s: Conn, error: Error, protocolId: nat, calls: seq<Call>)
    requires Inv(s) && s.bodies > 0
    ensures Inv(PacketDone(s, error, protocolId, calls))
  {
    hide Inv, Closing, ReadHeader, ReadFailed, Called, Closed;
    var t := s.(pendingRead := s.pendingRead - 1, bodies := s.bodies - 1);
    ReadTaken(s, t);
    if !t.closeState.CLOSE_STATE_CLOSING? {
      ReadFailedKeeps(t, error);
      ClosedKeeps(t);
      if !t.protocol { ProtocolKeeps(t); }
      var u := if t.protocol then t else t.(protocol := true, protocols := t.protocols + 1);
      CalledKeeps(u, calls);
      ReadKeeps(Called(u, calls));
    }
  }

  lemma WriteFailedKeeps(s: Conn, error: Error)
    requires Inv(s) && s.writing != [] && !error.NoError?
    ensures Inv(WriteDone(s, error))
  {
  }

  lemma WrittenKeeps(s: Conn)
    requires Inv(s) && s.writing != []
    ensures Inv(WriteDone(s, NoError))
  {
    assert s.writing == [s.writing[0]] && s.written + s.writing == s.handed;
    if s.queue != [] {
      assert s.queue == [s.queue[0]] + s.queue[1..];
      assert s.handed + s.queue == s.handed + [s.queue[0]] + s.queue[1..];
    }
  }

  lemma StepKeeps(s: Conn, e: Event)
    requires Inv(s) && Enabled(s, e)
    ensures Inv(Step(s, e))
  {
    hide Inv, Closed, Sent, ClosedByTask, HeaderDone, PacketDone, WriteDone;
    match e
    case Accept => ReadKeeps(s);
    case CloseConnection => ClosedKeeps(s);
    case CloseTask => CloseTaskKeeps(s);
    case HeaderRead(error, size) => HeaderKeeps(s, error, size);
    case PacketRead(error, id, calls) => PacketKeeps(s, error, id, calls);
    case SendMessage(msg) => SentKeeps(s, msg);
    case Written(error) => if error.NoError? { WrittenKeeps(s); } else { WriteFailedKeeps(s, error); }
  }

  // ---------------------------------------------------------------- whole runs

  /** The states of a run: each is the one before after an event that could happen. */
  predicate Run(s: Conn, events: seq<Event>, t: Conn)
    decreases |events|
  {
    if events == [] then s == t
    else Enabled(s, events[0]) && Run(Step(s, events[0]), events[1..], t)
  }

  lemma {:induction false} RunKeeps(s: Conn, events: seq<Event>, t: Conn)
    requires Inv(s) && Run(s, events, t)
    ensures Inv(t)
    decreases |events|
  {
    if events != [] {
      StepKeeps(s, events[0]);
      RunKeeps(Step(s, events[0]), events[1..], t);
    }
  }

  lemma FreshIsSound(s: Conn)
    requires Fresh(s)
    ensures Inv(s)
  {
  }

  /**
   * In every state a new connection can reach: the counters are the operations under way; the deletion task has been
   * posted once, exactly when the connection is closing and nothing is under way; and messages go out in order, one at
   * a time.
   */
  lemma ReachableIsSound(s: Conn, events: seq<Event>, t: Conn)
    requires Fresh(s) && Run(s, events, t)
    ensures t.pendingRead == t.headers + t.bodies
    ensures |t.writing| == if t.writeError then 0 else t.pendingWrite
    ensures t.deletions <= 1 && (t.deletions == 1 <==> t.closeState.CLOSE_STATE_CLOSING? && Idle(t))
    ensures t.handed + t.queue == t.accepted && |t.writing| <= 1
    ensures t.deletions == 1 && !t.writeError ==> t.queue == [] && t.written == t.accepted
  {
    hide Run, Idle, Step;
    FreshIsSound(s);
    RunKeeps(s, events, t);
    SoundMeans(t);
  }

  lemma SoundMeans(t: Conn)
    requires Inv(t)
    ensures t.pendingRead == t.headers + t.bodies
    ensures |t.writing| == if t.writeError then 0 else t.pendingWrite
    ensures t.deletions <= 1 && (t.deletions == 1 <==> t.closeState.CLOSE_STATE_CLOSING? && Idle(t))
    ensures t.handed + t.queue == t.accepted && |t.writing| <= 1
    ensures t.deletions == 1 && !t.writeError ==> t.queue == [] && t.written == t.accepted
  {
    if t.deletions == 1 && !t.writeError { NothingUnsent(t); }
  }

  lemma NothingUnsent(t: Conn)
    requires Inv(t) && t.deletions == 1 && !t.writeError
    ensures t.queue == [] && t.written == t.accepted
  {
    assert t.writing == [] && t.handed + [] == t.handed && t.written + [] == t.written;
  }

  /** The operations a closing connection still waits for. */
  function Waiting(s: Conn): nat {
    s.headers + s.bodies + |s.writing| + |s.queue|
  }

  predicate Completion(e: Event) {
    e.HeaderRead? || e.PacketRead? || e.Written?
  }

  lemma HeaderDrains(s: Conn, error: Error, size: int)
    requires Inv(s) && s.closeState.CLOSE_STATE_CLOSING? && s.headers > 0
    ensures var t := HeaderDone(s, error, size); t.closeState.CLOSE_STATE_CLOSING? && Waiting(t) == Waiting(s) - 1
  {
  }

  lemma PacketDrains(s: Conn, error: Error, protocolId: nat, calls: seq<Call>)
    requires Inv(s) && s.closeState.CLOSE_STATE_CLOSING? && s.bodies > 0
    ensures var t := PacketDone(s, error, protocolId, calls);
      t.closeState.CLOSE_STATE_CLOSING? && Waiting(t) == Waiting(s) - 1
  {
    hide PacketHandled;
  }

  lemma WriteDrains(s: Conn, error: Error)
    requires Inv(s) && s.closeState.CLOSE_STATE_CLOSING? && s.writing != []
    ensures var t := WriteDone(s, error); t.closeState.CLOSE_STATE_CLOSING? && Waiting(t) == Waiting(s) - 1
  {
  }

  /** Once closing, every completion brings the deletion nearer, and nothing else changes the connection. */
  lemma ClosingDrains(s: Conn, e: Event)
    requires Inv(s) && s.closeState.CLOSE_STATE_CLOSING? && Enabled(s, e)
    ensures Step(s, e).closeState.CLOSE_STATE_CLOSING?
    ensures if Completion(e) then Waiting(Step(s, e)) == Waiting(s) - 1 else Step(s, e) == s
  {
    hide Waiting, HeaderDone, PacketDone, WriteDone;
    match e
    case HeaderRead(error, size) => HeaderDrains(s, error, size);
    case PacketRead(error, protocolId, calls) => PacketDrains(s, error, protocolId, calls);
    case Written(error) => WriteDrains(s, error);
    case _ =>
  }

  /** So a closing connection sees a bounded number of completions, and has been deleted as soon as none is left. */
  lemma {:induction false} ClosingEnds(s: Conn, events: seq<Event>, t: Conn)
    requires Inv(s) && s.closeState.CLOSE_STATE_CLOSING? && Run(s, events, t)
    requires forall e | e in events :: Completion(e)
    ensures |events| <= Waiting(s) && Waiting(t) == Waiting(s) - |events|
    ensures t.deletions == 1 <==> forall e | Completion(e) :: !Enabled(t, e)
    decreases |events|
  {
    if events != [] {
      StepKeeps(s, events[0]);
      ClosingDrains(s, events[0]);
      ClosingEnds(Step(s, events[0]), events[1..], t);
    } else {
      assert Enabled(t, HeaderRead(NoError, 0)) <==> t.headers > 0;
      assert Enabled(t, PacketRead(NoError, 0, [])) <==> t.bodies > 0;
      assert Enabled(t, Written(NoError)) <==> t.writing != [];
    }
  }
}
