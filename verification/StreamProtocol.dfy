/** The whole protocol: a run's writers, the server's stream generator, a connection that
    loses messages when it drops, and the browser client that reconnects. */
module StreamProtocol {
  import opened Options
  import opened RunEvents
  import opened RunLog
  import opened StreamServer
  import opened StreamClient

  /** One WebSocket or EventSource connection, with the generator that serves it. */
  datatype Connection = Connection(
    gen: Generator,
    wire: seq<Wire>,                 // sent and not yet delivered
    sse: bool,
    wasOpen: bool,                   // `onopen` has fired
    urlAfter: nat,                   // `after_seq` of the connection's URL
    lastEventId: Option<nat>)        // the EventSource's own memory

  /** The client side of one stream, and the connection it holds, if any. */
  datatype Session = Session(client: Client, conn: Option<Connection>)

  datatype Label =
    | Opened
    | Fetch(batch: seq<Wire>)        // the query of the loop, or of the final flush
    | Send
    | CheckStatus
    | Deliver
    | Drop                           // connection closed or lost, whatever was in flight gone
    | Reconnect                      // the timer fires
    | NativeRetry                    // the EventSource reconnects by itself
    | CloseByUser

  function Dial(client: Client): Session {
    var c := Connect(client);
    Session(c, if c.socket then Some(Connection(Start(c.lastSeq), [], c.useSse, false, c.lastSeq, None)) else None)
  }

  function Begin(afterSeq: nat, hasWebSocket: bool): Session {
    Dial(Client(afterSeq, false, 0, !hasWebSocket, false, false, 0, [], [], false))
  }

  ghost predicate Enabled(row: Row, s: Session, l: Label) {
    if l.Reconnect? then s.client.timer
    else if l.CloseByUser? then true
    else
      && s.conn.Some?
      && var conn := s.conn.value;
         match l
         case Opened => !conn.wasOpen
         case Fetch(batch) =>
           (conn.gen.phase.Fetching? || conn.gen.phase.FinalFetching?) && IsBatch(row.events, conn.gen.cursor, BatchLimit, batch)
         case Send => HasBatch(conn.gen.phase) && conn.gen.phase.batch != []
         case CheckStatus => conn.gen.phase.Checking?
         case Deliver => conn.wasOpen && conn.wire != []
         case NativeRetry => conn.sse && conn.wasOpen
         case _ => true
  }

  ghost function Step(row: Row, s: Session, l: Label): Session
    requires Enabled(row, s, l)
  {
    match l
    case Reconnect => Dial(s.client)
    case CloseByUser => Session(Close(s.client), None)
    case Opened => s.(conn := Some(s.conn.value.(wasOpen := true)))
    case Fetch(batch) => s.(conn := Some(s.conn.value.(gen := TakeBatch(s.conn.value.gen, batch))))
    case Send =>
      var conn := s.conn.value;
      s.(conn := Some(conn.(gen := Advance(conn.gen), wire := conn.wire + [conn.gen.phase.batch[0]])))
    case CheckStatus => s.(conn := Some(s.conn.value.(gen := ReadStatus(s.conn.value.gen, row.status))))
    case Deliver =>
      var conn := s.conn.value;
      var client := HandleMessage(s.client, conn.wire[0]);
      Session(client, if client.socket
                      then Some(conn.(wire := conn.wire[1..], lastEventId := Some(conn.wire[0].seqNo)))
                      else None)
    case Drop => Session(ConnectionLost(s.client, s.conn.value.wasOpen), None)
    case NativeRetry =>
      var conn := s.conn.value;
      s.(conn := Some(conn.(gen := Start(ResumeSeq(conn.urlAfter, conn.lastEventId)), wire := [], wasOpen := false)))
  }

  // ---- exactly once -------------------------------------------------------------------

  /** The client has been given the log's rows from afterSeq up to lastSeq, once each and in
      order; what is in flight continues that, and the generator continues what is in flight. */
  ghost predicate StreamInv(row: Row, afterSeq: nat, s: Session) {
    && Dense(row)
    && IsSegment(row.events, afterSeq, s.client.delivered)
    && s.client.lastSeq == afterSeq + |s.client.delivered|
    && (s.conn.Some? ==> ConnInv(row, s.client.lastSeq, s.conn.value))
  }

  ghost predicate ConnInv(row: Row, lastSeq: nat, conn: Connection) {
    && IsSegment(row.events, lastSeq, conn.wire)
    && conn.gen.cursor == lastSeq + |conn.wire|
    && (HasBatch(conn.gen.phase) ==> conn.gen.phase.batch != [] && IsSegment(row.events, conn.gen.cursor, conn.gen.phase.batch))
    && ResumeSeq(conn.urlAfter, conn.lastEventId) == lastSeq
  }

  /** The client reports the end exactly when it has been given a terminal event, which is
      then the last thing it is given; as long as it has not stopped it is connected, over the
      transport it has settled on, or about to reconnect, after the delay its attempts so far
      call for. */
  ghost predicate EndInv(s: Session) {
    && (forall i :: 0 <= i < |s.client.delivered| && IsTerminalEvent(s.client.delivered[i].event)
          ==> s.client.ended && i == |s.client.delivered| - 1)
    && (s.client.ended ==>
          && |s.client.delivered| > 0
          && IsTerminalEvent(s.client.delivered[|s.client.delivered| - 1].event)
          && s.client.stopped)
    && (s.client.stopped ==> s.conn.None? && !s.client.timer)
    && (s.conn.None? && !s.client.stopped ==> s.client.timer)
    && (s.conn.Some? ==> s.client.socket && !s.client.timer && s.conn.value.sse == s.client.useSse)
    && (s.client.timer ==> s.client.attempts > 0 && s.client.delay == Delay(s.client.attempts - 1))
  }

  lemma BeginInv(row: Row, afterSeq: nat, hasWebSocket: bool)
    requires Dense(row)
    ensures StreamInv(row, afterSeq, Begin(afterSeq, hasWebSocket)) && EndInv(Begin(afterSeq, hasWebSocket))
    ensures Begin(afterSeq, hasWebSocket).client == Initial(afterSeq, hasWebSocket)
  {
  }

  lemma GrowthKeeps(row: Row, later: Row, afterSeq: nat, s: Session)
    requires StreamInv(row, afterSeq, s) && Dense(later) && Extends(row, later)
    ensures StreamInv(later, afterSeq, s)
  {
    SegmentExtends(row, later, afterSeq, s.client.delivered);
    if s.conn.Some? {
      var conn := s.conn.value;
      SegmentExtends(row, later, s.client.lastSeq, conn.wire);
      if HasBatch(conn.gen.phase) {
        SegmentExtends(row, later, conn.gen.cursor, conn.gen.phase.batch);
      }
    }
  }

  lemma SendKeeps(row: Row, afterSeq: nat, s: Session)
    requires StreamInv(row, afterSeq, s) && Enabled(row, s, Send)
    ensures StreamInv(row, afterSeq, Step(row, s, Send))
  {
    var conn := s.conn.value;
    var batch := conn.gen.phase.batch;
    SegmentDrop(row.events, conn.gen.cursor, batch);
    assert IsSegment(row.events, s.client.lastSeq + |conn.wire|, [batch[0]]);
    SegmentJoin(row.events, s.client.lastSeq, conn.wire, [batch[0]]);
  }

  lemma DeliverKeeps(row: Row, afterSeq: nat, s: Session)
    requires StreamInv(row, afterSeq, s) && Enabled(row, s, Deliver)
    ensures StreamInv(row, afterSeq, Step(row, s, Deliver))
  {
    var conn := s.conn.value;
    SegmentDrop(row.events, s.client.lastSeq, conn.wire);
    assert IsSegment(row.events, afterSeq + |s.client.delivered|, [conn.wire[0]]);
    SegmentJoin(row.events, afterSeq, s.client.delivered, [conn.wire[0]]);
  }

  lemma FetchKeeps(row: Row, afterSeq: nat, s: Session, batch: seq<Wire>)
    requires StreamInv(row, afterSeq, s) && Enabled(row, s, Fetch(batch))
    ensures StreamInv(row, afterSeq, Step(row, s, Fetch(batch)))
  {
    NextRowsIsBatch(row, s.conn.value.gen.cursor, BatchLimit);
  }

  lemma NetKeeps(row: Row, afterSeq: nat, s: Session, l: Label)
    requires StreamInv(row, afterSeq, s) && EndInv(s) && Enabled(row, s, l)
    ensures StreamInv(row, afterSeq, Step(row, s, l))
  {
    if l.Send? {
      SendKeeps(row, afterSeq, s);
    } else if l.Deliver? {
      DeliverKeeps(row, afterSeq, s);
    } else if l.Fetch? {
      FetchKeeps(row, afterSeq, s, l.batch);
    }
  }

  lemma NetKeepsEnd(row: Row, s: Session, l: Label)
    requires EndInv(s) && Enabled(row, s, l)
    ensures EndInv(Step(row, s, l))
  {
  }

  // ---- which transport, and after how long ---------------------------------------------

  /** A connection that is lost is followed by one that resumes after the last event delivered:
      over SSE if it was one of these, or a WebSocket that never opened, and otherwise over a
      WebSocket again. */
  lemma NextTransport(row: Row, s: Session)
    requires EndInv(s) && Enabled(row, s, Drop)
    ensures var dropped := Step(row, s, Drop);
            && dropped.conn.None? && Enabled(row, dropped, Reconnect)
            && dropped.client.delay == Delay(s.client.attempts)
            && var next := Step(row, dropped, Reconnect).conn;
               && next.Some? && !next.value.wasOpen && next.value.urlAfter == s.client.lastSeq
               && (next.value.sse <==> s.conn.value.sse || !s.conn.value.wasOpen)
  {
  }

  /** What a step does to the number of attempts and to the choice of transport. */
  lemma StepBackoff(row: Row, s: Session, l: Label)
    requires EndInv(s) && Enabled(row, s, l)
    ensures Step(row, s, l).client.attempts
         == if l.Deliver? then 0 else if l.Drop? then s.client.attempts + 1 else s.client.attempts
    ensures Step(row, s, l).client.useSse <==> s.client.useSse || (l.Drop? && !s.conn.value.wasOpen)
  {
  }
}
