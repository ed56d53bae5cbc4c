/** That a connection goes on reading, and all that can stop it. */
module ConnectionReads {
  import opened ConnectionSteps

  predicate Open(s: Conn) {
    s.closeState.CLOSE_STATE_NONE? && !s.readError
  }

  function Reads(s: Conn): nat {
    s.headers + s.bodies
  }

  // ---------------------------------------------------------------- what a protocol can change

  lemma {:induction false} CalledReads(s: Conn, calls: seq<Call>)
    ensures var t := Called(s, calls);
      && t.headers == s.headers && t.bodies == s.bodies && t.protocol == s.protocol
      && t.readError == s.readError && t.writeError == s.writeError
      && (s.closeState.CLOSE_STATE_NONE? ==> (t.closeState.CLOSE_STATE_NONE? <==> Close !in calls))
      && (!s.closeState.CLOSE_STATE_NONE? ==> t.closeState == s.closeState)
    decreases |calls|
  {
    if calls != [] {
      CalledReads(CalledOnce(s, calls[0]), calls[1..]);
      assert Close in calls <==> calls[0] == Close || Close in calls[1..];
    }
  }

  lemma PacketOutcome(s: Conn, error: Error, id: nat, calls: seq<Call>)
    requires s.bodies > 0
    ensures var t := PacketDone(s, error, id, calls);
      && t.writeError == s.writeError
      && (t.readError <==> s.readError || (!s.closeState.CLOSE_STATE_CLOSING? && error != NoError))
      && (if !s.closeState.CLOSE_STATE_NONE? then t.closeState == s.closeState
          else t.closeState.CLOSE_STATE_NONE? <==>
            if error != NoError then error == OperationAborted
            else (s.protocol || id in {0x01, 0x0A, 0xFE, 0xFF}) && Close !in calls)
  {
    hide Called;
    var u := s.(pendingRead := s.pendingRead - 1, bodies := s.bodies - 1);
    CalledReads(if s.protocol then u else u.(protocol := true, protocols := u.protocols + 1), calls);
  }

  lemma HeaderOutcome(s: Conn, error: Error, size: int)
    requires s.headers > 0
    ensures var t := HeaderDone(s, error, size);
      var good := error == NoError && 1 <= size <= 15343;
      && t.writeError == s.writeError
      && (t.readError <==> s.readError || (!s.closeState.CLOSE_STATE_CLOSING? && !good))
      && (if !s.closeState.CLOSE_STATE_NONE? then t.closeState == s.closeState
          else t.closeState.CLOSE_STATE_NONE? <==> good || error == OperationAborted)
  {
  }

  lemma WriteOutcome(s: Conn, error: Error)
    requires s.writing != []
    ensures var t := WriteDone(s, error);
      && t.readError == s.readError
      && (t.writeError <==> s.writeError || error != NoError)
      && (if !s.closeState.CLOSE_STATE_NONE? then t.closeState == s.closeState
          else t.closeState.CLOSE_STATE_NONE? <==> error == NoError || error == OperationAborted)
  {
    var u := s.(writing := s.writing[1..]);
    var next, failed := NextSent(u.(written := s.written + [s.writing[0]])), WriteFailed(u, error);
    SameState(u.(written := s.written + [s.writing[0]]));
    hide NextSent, WriteFailed;
    SameClosing(next);
    SameClosing(failed);
    FailedState(u, error);
    hide Closing;
  }

  lemma SameState(s: Conn)
    ensures var t := NextSent(s);
      t.readError == s.readError && t.writeError == s.writeError && t.closeState == s.closeState
  {
  }

  lemma SameClosing(s: Conn)
    ensures var t := Closing(s);
      t.readError == s.readError && t.writeError == s.writeError && t.closeState == s.closeState
  {
  }

  lemma FailedState(s: Conn, error: Error)
    ensures var t := WriteFailed(s, error);
      && t.readError == s.readError && t.writeError
      && t.closeState ==
        if s.closeState.CLOSE_STATE_NONE? && error != OperationAborted then CLOSE_STATE_REQUESTED else s.closeState
  {
  }

  // ---------------------------------------------------------------- one event

  /** A good header is followed by the read of the body it announces. */
  lemma HeaderLeadsToBody(s: Conn, size: int)
    requires s.headers > 0 && !s.closeState.CLOSE_STATE_CLOSING? && 1 <= size <= 15343
    ensures var t := Step(s, HeaderRead(NoError, size));
      && t.headers == s.headers - 1 && t.bodies == s.bodies + 1
      && t.closeState == s.closeState && t.readError == s.readError
  {
  }

  /** A good packet, if its protocol is known, is followed by the read of the next header. */
  lemma PacketLeadsToHeader(s: Conn, id: nat, calls: seq<Call>)
    requires s.bodies > 0 && !s.closeState.CLOSE_STATE_CLOSING? && (s.protocol || id in {0x01, 0x0A, 0xFE, 0xFF})
    ensures var t := Step(s, PacketRead(NoError, id, calls));
      && t.headers == s.headers + 1 && t.bodies == s.bodies - 1 && t.protocol && t.readError == s.readError
      && (s.closeState.CLOSE_STATE_NONE? ==> (t.closeState.CLOSE_STATE_NONE? <==> Close !in calls))
  {
    hide Called;
    var u := s.(pendingRead := s.pendingRead - 1, bodies := s.bodies - 1);
    CalledReads(if s.protocol then u else u.(protocol := true, protocols := u.protocols + 1), calls);
  }

  /** Any other packet asks for the connection to be closed, and nothing more is read. */
  lemma UnknownPacketCloses(s: Conn, id: nat, calls: seq<Call>)
    requires s.bodies > 0 && !s.closeState.CLOSE_STATE_CLOSING? && !s.protocol && id !in {0x01, 0x0A, 0xFE, 0xFF}
    ensures var t := Step(s, PacketRead(NoError, id, calls));
      Reads(t) == Reads(s) - 1 && !t.closeState.CLOSE_STATE_NONE? && !t.protocol && t.readError == s.readError
  {
  }

  /** What sets the read error: an error, or a size that no message has. */
  lemma ReadErrorComes(s: Conn, e: Event)
    requires Enabled(s, e)
    ensures Step(s, e).readError <==>
      || s.readError
      || (!s.closeState.CLOSE_STATE_CLOSING? &&
          match e
          case HeaderRead(error, size) => error != NoError || size < 1 || size > 15343
          case PacketRead(error, _, _) => error != NoError
          case _ => false)
  {
    hide PacketDone, HeaderDone, WriteDone;
    match e
    case HeaderRead(error, size) => HeaderOutcome(s, error, size);
    case PacketRead(error, id, calls) => PacketOutcome(s, error, id, calls);
    case Written(error) => WriteOutcome(s, error);
    case _ =>
  }

  /** What asks an open connection to close: being told to, a failure other than an abort, or an unknown protocol. */
  lemma CloseComes(s: Conn, e: Event)
    requires Inv(s) && Enabled(s, e) && s.closeState.CLOSE_STATE_NONE?
    ensures !Step(s, e).closeState.CLOSE_STATE_NONE? <==>
      match e
      case CloseConnection => true
      case HeaderRead(error, size) => error != OperationAborted && (error != NoError || size < 1 || size > 15343)
      case PacketRead(error, id, calls) =>
        if error != NoError then error != OperationAborted
        else if !s.protocol && id !in {0x01, 0x0A, 0xFE, 0xFF} then true
        else Close in calls
      case Written(error) => error != NoError && error != OperationAborted
      case _ => false
  {
    hide PacketDone, HeaderDone, WriteDone;
    match e
    case HeaderRead(error, size) => HeaderOutcome(s, error, size);
    case PacketRead(error, id, calls) => PacketOutcome(s, error, id, calls);
    case Written(error) => WriteOutcome(s, error);
    case _ =>
  }

  /** What sets the write error: a write that fails. */
  lemma WriteErrorComes(s: Conn, e: Event)
    requires Enabled(s, e)
    ensures Step(s, e).writeError <==> s.writeError || (e.Written? && e.error != NoError)
  {
    hide PacketDone, HeaderDone, WriteDone;
    match e
    case HeaderRead(error, size) => HeaderOutcome(s, error, size);
    case PacketRead(error, id, calls) => PacketOutcome(s, error, id, calls);
    case Written(error) => WriteOutcome(s, error);
    case _ =>
  }

  /** A message is accepted unless the connection is closing or could not write; it goes out at once if none is. */
  lemma MessageIsTaken(s: Conn, msg: nat)
    requires Inv(s)
    ensures var t := Step(s, SendMessage(msg));
      if s.closeState.CLOSE_STATE_CLOSING? || s.writeError then t == s
      else t.accepted == s.accepted + [msg] && (s.writing == [] ==> t.writing == [msg])
  {
  }

  /** The delayed closing closes. */
  lemma TaskCloses(s: Conn)
    requires Inv(s) && Enabled(s, CloseTask)
    ensures Step(s, CloseTask).closeState.CLOSE_STATE_CLOSING?
  {
  }

  /** As long as a connection stays open, every read is followed by a read. */
  lemma OpenGoesOn(s: Conn, e: Event)
    requires Inv(s) && Enabled(s, e) && Open(Step(s, e))
    ensures Open(s) && Reads(Step(s, e)) == Reads(s) + if e.Accept? then 1 else 0
  {
    ReadErrorComes(s, e);
    if !s.closeState.CLOSE_STATE_NONE? { OnceClosed(s, e); }
    match e
    case HeaderRead(error, size) =>
      hide Step, Inv;
      CloseComes(s, e);
      HeaderLeadsToBody(s, size);
    case PacketRead(error, id, calls) =>
      hide Step, Inv;
      CloseComes(s, e);
      PacketLeadsToHeader(s, id, calls);
    case _ =>
  }

  lemma OnceClosed(s: Conn, e: Event)
    requires Enabled(s, e) && !s.closeState.CLOSE_STATE_NONE?
    ensures !Step(s, e).closeState.CLOSE_STATE_NONE?
  {
    hide PacketDone, HeaderDone, WriteDone;
    match e
    case HeaderRead(error, size) => HeaderOutcome(s, error, size);
    case PacketRead(error, id, calls) => PacketOutcome(s, error, id, calls);
    case Written(error) => WriteOutcome(s, error);
    case _ =>
  }

  // ---------------------------------------------------------------- whole runs

  function Accepts(events: seq<Event>): nat
    decreases |events|
  {
    if events == [] then 0 else (if events[0].Accept? then 1 else 0) + Accepts(events[1..])
  }

  lemma {:induction false} RunReads(s: Conn, events: seq<Event>, t: Conn)
    requires Inv(s) && Run(s, events, t) && Open(t)
    ensures Open(s) && Reads(t) == Reads(s) + Accepts(events)
    decreases |events|
  {
    hide Step, Inv, Open, Reads;
    if events != [] {
      StepKeeps(s, events[0]);
      RunReads(Step(s, events[0]), events[1..], t);
      OpenGoesOn(s, events[0]);
    }
  }

  /** In every state a new connection can reach: as long as no one has asked it to close and no read has failed, there
      is one read under way for each time it was accepted. */
  lemma OpenIsReading(s: Conn, events: seq<Event>, t: Conn)
    requires Fresh(s) && Run(s, events, t) && t.closeState == CLOSE_STATE_NONE && !t.readError
    ensures t.headers + t.bodies == Accepts(events)
  {
    FreshIsSound(s);
    RunReads(s, events, t);
  }
}
