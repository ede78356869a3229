/** What the run's writers, the server and the client promise together, over every
    interleaving of their steps. */
module StreamTheorems {
  import opened Options
  import opened RunEvents
  import opened RunLog
  import opened StreamClient
  import opened StreamServer
  import L = RunLifecycle
  import P = StreamProtocol

  datatype World = World(run: L.State, session: P.Session)

  datatype Move = Run(l: L.Label) | Net(n: P.Label)

  ghost predicate Enabled(c: L.Config, w: World, m: Move) {
    match m
    case Run(l) => L.Enabled(c, w.run, l)
    case Net(n) => P.Enabled(w.run.row, w.session, n)
  }

  ghost function Step(c: L.Config, w: World, m: Move): World
    requires Enabled(c, w, m)
  {
    match m
    case Run(l) => w.(run := L.Step(c, w.run, l))
    case Net(n) => w.(session := P.Step(w.run.row, w.session, n))
  }

  ghost predicate Valid(c: L.Config, w: World, ms: seq<Move>)
    decreases ms
  {
    ms == [] || (Enabled(c, w, ms[0]) && Valid(c, Step(c, w, ms[0]), ms[1..]))
  }

  ghost function After(c: L.Config, w: World, ms: seq<Move>): World
    requires Valid(c, w, ms)
    decreases ms
  {
    if ms == [] then w else After(c, Step(c, w, ms[0]), ms[1..])
  }

  /** A stream opened on a run that has already gone through the steps `before`. */
  ghost function Start(c: L.Config, before: seq<L.Label>, afterSeq: nat, hasWebSocket: bool): World
    requires L.Valid(c, L.Init(), before)
  {
    World(L.After(c, L.Init(), before), P.Begin(afterSeq, hasWebSocket))
  }

  ghost predicate WorldInv(afterSeq: nat, w: World) {
    L.WritersInv(w.run) && P.StreamInv(w.run.row, afterSeq, w.session) && P.EndInv(w.session)
  }

  lemma MoveKeeps(c: L.Config, afterSeq: nat, w: World, m: Move)
    requires WorldInv(afterSeq, w) && Enabled(c, w, m)
    ensures WorldInv(afterSeq, Step(c, w, m)) && Extends(w.run.row, Step(c, w, m).run.row)
  {
    match m
    case Run(l) =>
      L.WritersKeep(c, w.run, l);
      P.GrowthKeeps(w.run.row, L.Step(c, w.run, l).row, afterSeq, w.session);
    case Net(n) =>
      P.NetKeeps(w.run.row, afterSeq, w.session, n);
      P.NetKeepsEnd(w.run.row, w.session, n);
  }

  lemma {:induction false} MovesKeep(c: L.Config, afterSeq: nat, w: World, ms: seq<Move>)
    requires WorldInv(afterSeq, w) && Valid(c, w, ms)
    ensures WorldInv(afterSeq, After(c, w, ms)) && Extends(w.run.row, After(c, w, ms).run.row)
    decreases ms
  {
    if ms != [] {
      MoveKeeps(c, afterSeq, w, ms[0]);
      MovesKeep(c, afterSeq, Step(c, w, ms[0]), ms[1..]);
    }
  }

  lemma {:induction false} WritersReached(c: L.Config, s: L.State, ls: seq<L.Label>)
    requires L.WritersInv(s) && L.Valid(c, s, ls)
    ensures L.WritersInv(L.After(c, s, ls)) && Extends(s.row, L.After(c, s, ls).row)
    decreases ls
  {
    if ls != [] {
      L.WritersKeep(c, s, ls[0]);
      WritersReached(c, L.Step(c, s, ls[0]), ls[1..]);
    }
  }

  lemma StartInv(c: L.Config, before: seq<L.Label>, afterSeq: nat, hasWebSocket: bool)
    requires L.Valid(c, L.Init(), before)
    ensures WorldInv(afterSeq, Start(c, before, afterSeq, hasWebSocket))
  {
    WritersReached(c, L.Init(), before);
    P.BeginInv(L.After(c, L.Init(), before).row, afterSeq, hasWebSocket);
  }

  /** Exactly-once resume: whatever the writers do (late cancels included), however the
      batches fall, wherever the connection drops and whichever transport comes next, what
      the client has been given is log[afterSeq+1 .. lastSeq], in order, with no gap and no
      duplicate. */
  lemma ExactlyOnce(c: L.Config, before: seq<L.Label>, afterSeq: nat, hasWebSocket: bool, ms: seq<Move>)
    requires L.Valid(c, L.Init(), before) && Valid(c, Start(c, before, afterSeq, hasWebSocket), ms)
    ensures var w := After(c, Start(c, before, afterSeq, hasWebSocket), ms);
            var client, row := w.session.client, w.run.row;
            && Dense(row)
            && afterSeq <= client.lastSeq
            && (afterSeq < client.lastSeq ==> client.lastSeq <= row.lastSeq)
            && (forall k :: afterSeq < k <= client.lastSeq ==> k in row.events)
            && client.delivered == Segment(row.events, afterSeq, client.lastSeq)
  {
    StartInv(c, before, afterSeq, hasWebSocket);
    MovesKeep(c, afterSeq, Start(c, before, afterSeq, hasWebSocket), ms);
    var w := After(c, Start(c, before, afterSeq, hasWebSocket), ms);
    SegmentRows(w.run.row.events, afterSeq, w.session.client.delivered);
    assert afterSeq < w.session.client.lastSeq ==> w.session.client.lastSeq in w.run.row.events;
  }

  /** Two moments of one session: what was delivered stays delivered, and stays first. */
  lemma {:induction false} DeliveredGrows(c: L.Config, afterSeq: nat, w: World, ms: seq<Move>)
    requires WorldInv(afterSeq, w) && Valid(c, w, ms)
    ensures w.session.client.delivered <= After(c, w, ms).session.client.delivered
    ensures w.session.client.ended ==> After(c, w, ms).session.client.delivered == w.session.client.delivered
    ensures w.session.client.stopped ==> After(c, w, ms).session.client.stopped
    decreases ms
  {
    if ms != [] {
      MoveKeeps(c, afterSeq, w, ms[0]);
      DeliveredGrows(c, afterSeq, Step(c, w, ms[0]), ms[1..]);
    }
  }

  // ---- the end of the stream ----------------------------------------------------------

  ghost predicate FullInv(c: L.Config, afterSeq: nat, w: World) {
    WorldInv(afterSeq, w) && L.Inv(c, w.run)
  }

  lemma {:induction false} FullReached(c: L.Config, afterSeq: nat, w: World, ms: seq<Move>)
    requires !c.lateCancels && FullInv(c, afterSeq, w) && Valid(c, w, ms)
    ensures FullInv(c, afterSeq, After(c, w, ms))
    decreases ms
  {
    if ms != [] {
      MoveKeeps(c, afterSeq, w, ms[0]);
      if ms[0].Run? { L.StepKeeps(c, w.run, ms[0].l); }
      FullReached(c, afterSeq, Step(c, w, ms[0]), ms[1..]);
    }
  }

  /** Every state of every session of a supervised run satisfies the full invariant. */
  lemma FullFromStart(c: L.Config, before: seq<L.Label>, afterSeq: nat, hasWebSocket: bool, ms: seq<Move>)
    requires L.Articulate(c) && !c.lateCancels
    requires L.Valid(c, L.Init(), before) && Valid(c, Start(c, before, afterSeq, hasWebSocket), ms)
    ensures FullInv(c, afterSeq, After(c, Start(c, before, afterSeq, hasWebSocket), ms))
  {
    L.InitInv(c);
    L.RunKeeps(c, L.Init(), before);
    StartInv(c, before, afterSeq, hasWebSocket);
    FullReached(c, afterSeq, Start(c, before, afterSeq, hasWebSocket), ms);
  }

  /** A client that reports the end of a supervised run has been given the run's whole log
      after afterSeq; the run is finished, and the last event given carries its status. */
  lemma EndedIsComplete(c: L.Config, afterSeq: nat, w: World)
    requires !c.lateCancels && FullInv(c, afterSeq, w) && w.session.client.ended
    ensures w.run.pc.Finished? && w.session.client.lastSeq == w.run.row.lastSeq
    ensures w.session.client.delivered[|w.session.client.delivered| - 1] == Wire(w.run.row.lastSeq, RunStatus(w.run.row.status))
  {
    SegmentEnds(w.run.row.events, afterSeq, w.session.client.delivered);
  }

  /** The client stops at the first terminal event, so one that has neither ended nor been
      closed has something left to receive from a finished run, unless it was opened at or
      past the end of the log. */
  lemma UnendedIsBehind(c: L.Config, afterSeq: nat, w: World)
    requires !c.lateCancels && FullInv(c, afterSeq, w)
    requires w.run.pc.Finished? && !w.session.client.ended
    ensures w.session.client.lastSeq < w.run.row.lastSeq <==> afterSeq < w.run.row.lastSeq
  {
    SegmentEnds(w.run.row.events, afterSeq, w.session.client.delivered);
  }

  /** One successful reconnect-and-fetch: the batch is the next min(500, what is left) rows,
      and it is empty only when the client is up to date. */
  lemma ReconnectFetches(c: L.Config, afterSeq: nat, w: World, batch: seq<Wire>)
    requires WorldInv(afterSeq, w) && w.session.client.timer
    requires P.Enabled(w.run.row, P.Dial(w.session.client), P.Fetch(batch))
    ensures |batch| == if w.session.client.lastSeq < w.run.row.lastSeq
                       then Min(500, w.run.row.lastSeq - w.session.client.lastSeq) else 0
    ensures IsSegment(w.run.row.events, w.session.client.lastSeq, batch)
  {
    NextRowsIsBatch(w.run.row, w.session.client.lastSeq, BatchLimit);
  }

  // ---- every continuation ---------------------------------------------------------------

  /** The deliveries among the moves. */
  function Delivers(ms: seq<Move>): nat {
    if ms == [] then 0 else (if ms[0] == Net(P.Deliver) then 1 else 0) + Delivers(ms[1..])
  }

  /** Each delivery brings the client exactly one event further, and nothing else moves it. */
  lemma {:induction false} EachDeliveryCounts(c: L.Config, afterSeq: nat, w: World, ms: seq<Move>)
    requires WorldInv(afterSeq, w) && Valid(c, w, ms)
    ensures After(c, w, ms).session.client.lastSeq == w.session.client.lastSeq + Delivers(ms)
    decreases ms
  {
    if ms != [] {
      MoveKeeps(c, afterSeq, w, ms[0]);
      MoveCounts(c, afterSeq, w, ms[0]);
      EachDeliveryCounts(c, afterSeq, Step(c, w, ms[0]), ms[1..]);
    }
  }

  lemma MoveCounts(c: L.Config, afterSeq: nat, w: World, m: Move)
    requires WorldInv(afterSeq, w) && Enabled(c, w, m)
    ensures Step(c, w, m).session.client.lastSeq == w.session.client.lastSeq + if m == Net(P.Deliver) then 1 else 0
  {
    if m == Net(P.Deliver) {
      SegmentEnds(w.run.row.events, w.session.client.lastSeq, w.session.conn.value.wire);
    }
  }

  /** In every state of every session of a supervised run, `ended` is reported iff the run is
      finished, the stream was opened before the end of its log, and all of it was delivered. */
  lemma EndedIff(c: L.Config, afterSeq: nat, w: World)
    requires !c.lateCancels && FullInv(c, afterSeq, w)
    ensures w.session.client.ended
       <==> w.run.pc.Finished? && afterSeq < w.run.row.lastSeq == w.session.client.lastSeq
  {
    SegmentEnds(w.run.row.events, afterSeq, w.session.client.delivered);
    if w.session.client.ended {
      EndedIsComplete(c, afterSeq, w);
    } else if w.run.pc.Finished? {
      UnendedIsBehind(c, afterSeq, w);
    }
  }

  /** What is left to deliver of a finished run falls by exactly one with each delivery, in every
      continuation whatever; so no continuation delivers more than that, and a continuation ends
      the stream exactly when it delivers all of it. */
  lemma EndsWithLastDelivery(c: L.Config, afterSeq: nat, w: World, ms: seq<Move>)
    requires !c.lateCancels && FullInv(c, afterSeq, w) && w.run.pc.Finished? && Valid(c, w, ms)
    requires afterSeq < w.run.row.lastSeq && !w.session.client.ended
    ensures After(c, w, ms).run.row == w.run.row
    ensures var left := w.run.row.lastSeq - w.session.client.lastSeq;
            && 0 < left && Delivers(ms) <= left
            && w.run.row.lastSeq - After(c, w, ms).session.client.lastSeq == left - Delivers(ms)
            && (After(c, w, ms).session.client.ended <==> Delivers(ms) == left)
  {
    UnendedIsBehind(c, afterSeq, w);
    FinishedStays(c, afterSeq, w, ms);
    EachDeliveryCounts(c, afterSeq, w, ms);
    var v := After(c, w, ms);
    EndedIff(c, afterSeq, v);
    SegmentEnds(v.run.row.events, afterSeq, v.session.client.delivered);
  }

  /** Every session, from the moment it is opened: the client has been given one event for each
      delivery, never more than the log holds, and it reports the end exactly when the run is
      finished and the deliveries have covered all that followed afterSeq. */
  lemma WholeSession(c: L.Config, before: seq<L.Label>, afterSeq: nat, hasWebSocket: bool, ms: seq<Move>)
    requires L.Articulate(c) && !c.lateCancels
    requires L.Valid(c, L.Init(), before) && Valid(c, Start(c, before, afterSeq, hasWebSocket), ms)
    ensures var w := After(c, Start(c, before, afterSeq, hasWebSocket), ms);
            && |w.session.client.delivered| == Delivers(ms)
            && (Delivers(ms) > 0 ==> afterSeq + Delivers(ms) <= w.run.row.lastSeq)
            && (w.session.client.ended
                <==> w.run.pc.Finished? && Delivers(ms) > 0 && afterSeq + Delivers(ms) == w.run.row.lastSeq)
  {
    var start := Start(c, before, afterSeq, hasWebSocket);
    var w := After(c, start, ms);
    StartInv(c, before, afterSeq, hasWebSocket);
    EachDeliveryCounts(c, afterSeq, start, ms);
    FullFromStart(c, before, afterSeq, hasWebSocket, ms);
    EndedIff(c, afterSeq, w);
    SegmentEnds(w.run.row.events, afterSeq, w.session.client.delivered);
    ExactlyOnce(c, before, afterSeq, hasWebSocket, ms);
  }

  // ---- reconnecting --------------------------------------------------------------------

  /** The connections lost since the last delivery, n of them before these moves. */
  function LostSince(n: nat, ms: seq<Move>): nat
    decreases ms
  {
    if ms == [] then n
    else LostSince(if ms[0] == Net(P.Deliver) then 0 else if ms[0] == Net(P.Drop) then n + 1 else n, ms[1..])
  }

  /** Along these moves some connection is lost that never opened. */
  ghost predicate HandshakeFails(c: L.Config, w: World, ms: seq<Move>)
    requires Valid(c, w, ms)
    decreases ms
  {
    ms != []
    && ((ms[0] == Net(P.Drop) && !w.session.conn.value.wasOpen) || HandshakeFails(c, Step(c, w, ms[0]), ms[1..]))
  }

  lemma {:induction false} MovesBackoff(c: L.Config, afterSeq: nat, w: World, ms: seq<Move>)
    requires WorldInv(afterSeq, w) && Valid(c, w, ms)
    ensures After(c, w, ms).session.client.attempts == LostSince(w.session.client.attempts, ms)
    ensures After(c, w, ms).session.client.useSse <==> w.session.client.useSse || HandshakeFails(c, w, ms)
    decreases ms
  {
    if ms != [] {
      MoveKeeps(c, afterSeq, w, ms[0]);
      if ms[0].Net? { P.StepBackoff(w.run.row, w.session, ms[0].n); }
      MovesBackoff(c, afterSeq, Step(c, w, ms[0]), ms[1..]);
    }
  }

  /** Every session, at every moment. The client is on SSE iff there is no WebSocket or one of its
      connections was lost before it opened, and from then on for good; a connection it holds is
      of that kind. And a pending reconnect waits half a second, doubled for every connection lost
      since the last delivery but the latest, up to ten seconds. */
  lemma Reconnecting(c: L.Config, before: seq<L.Label>, afterSeq: nat, hasWebSocket: bool, ms: seq<Move>)
    requires L.Valid(c, L.Init(), before) && Valid(c, Start(c, before, afterSeq, hasWebSocket), ms)
    ensures var start := Start(c, before, afterSeq, hasWebSocket);
            var client, conn := After(c, start, ms).session.client, After(c, start, ms).session.conn;
            && (client.useSse <==> !hasWebSocket || HandshakeFails(c, start, ms))
            && (conn.Some? ==> conn.value.sse == client.useSse)
            && (client.timer ==> LostSince(0, ms) > 0 && client.delay == Delay(LostSince(0, ms) - 1))
  {
    var start := Start(c, before, afterSeq, hasWebSocket);
    StartInv(c, before, afterSeq, hasWebSocket);
    MovesKeep(c, afterSeq, start, ms);
    MovesBackoff(c, afterSeq, start, ms);
  }

  ghost predicate Reaches(c: L.Config, w: World, w': World) {
    exists ms :: Valid(c, w, ms) && After(c, w, ms) == w'
  }

  lemma {:induction false} Concat(c: L.Config, w: World, ms: seq<Move>, ns: seq<Move>)
    requires Valid(c, w, ms) && Valid(c, After(c, w, ms), ns)
    ensures Valid(c, w, ms + ns) && After(c, w, ms + ns) == After(c, After(c, w, ms), ns)
    decreases ms
  {
    if ms == [] {
      assert ms + ns == ns;
    } else {
      assert (ms + ns)[1..] == ms[1..] + ns;
      Concat(c, Step(c, w, ms[0]), ms[1..], ns);
    }
  }

  lemma Here(c: L.Config, w: World)
    ensures Reaches(c, w, w)
  {
    assert Valid(c, w, []) && After(c, w, []) == w;
  }

  lemma Transitive(c: L.Config, w: World, v: World, u: World)
    requires Reaches(c, w, v) && Reaches(c, v, u)
    ensures Reaches(c, w, u)
  {
    var ms :| Valid(c, w, ms) && After(c, w, ms) == v;
    var ns :| Valid(c, v, ns) && After(c, v, ns) == u;
    Concat(c, w, ms, ns);
  }

  lemma Then(c: L.Config, w: World, v: World, m: Move)
    requires Reaches(c, w, v) && Enabled(c, v, m)
    ensures Reaches(c, w, Step(c, v, m))
  {
    assert [m][1..] == [];
    assert Valid(c, Step(c, v, m), []) && Valid(c, v, [m]) && After(c, v, [m]) == Step(c, v, m);
    Transitive(c, w, v, Step(c, v, m));
  }

  /** A client that holds a scheduled reconnect, as after any lost connection. */
  lemma BecomeIdle(c: L.Config, afterSeq: nat, w: World) returns (v: World)
    requires WorldInv(afterSeq, w) && !w.session.client.stopped
    ensures Reaches(c, w, v) && WorldInv(afterSeq, v)
    ensures v.run == w.run && v.session.client.timer && v.session.client.lastSeq == w.session.client.lastSeq
    ensures !v.session.client.stopped
  {
    Here(c, w);
    if w.session.conn.Some? {
      Then(c, w, w, Net(P.Drop));
      MoveKeeps(c, afterSeq, w, Net(P.Drop));
      v := Step(c, w, Net(P.Drop));
    } else {
      v := w;
    }
  }

  /** The measure falls: from any state of an open stream with events left to receive, a
      reconnect, a fetch and one delivery bring the client one event further. */
  lemma OneFurther(c: L.Config, afterSeq: nat, w: World) returns (v: World)
    requires WorldInv(afterSeq, w) && !w.session.client.stopped && w.session.client.lastSeq < w.run.row.lastSeq
    ensures Reaches(c, w, v) && WorldInv(afterSeq, v)
    ensures v.run == w.run && v.session.client.lastSeq == w.session.client.lastSeq + 1
    ensures IsTerminalEvent(w.run.row.events[w.session.client.lastSeq + 1]) <==> v.session.client.stopped
    ensures v.session.client.stopped ==> v.session.client.ended
  {
    var idle := BecomeIdle(c, afterSeq, w);
    var dialled := Step(c, idle, Net(P.Reconnect));
    MoveKeeps(c, afterSeq, idle, Net(P.Reconnect));
    Then(c, w, idle, Net(P.Reconnect));
    v := FetchOne(c, afterSeq, dialled);
    Transitive(c, w, dialled, v);
  }

  lemma FetchOne(c: L.Config, afterSeq: nat, w: World) returns (v: World)
    requires WorldInv(afterSeq, w) && !w.session.client.stopped && w.session.client.lastSeq < w.run.row.lastSeq
    requires w.session.conn == Some(P.Connection(StreamServer.Start(w.session.client.lastSeq), [], w.session.client.useSse,
                                                 false, w.session.client.lastSeq, None))
    ensures Reaches(c, w, v) && WorldInv(afterSeq, v)
    ensures v.run == w.run && v.session.client.lastSeq == w.session.client.lastSeq + 1
    ensures IsTerminalEvent(w.run.row.events[w.session.client.lastSeq + 1]) <==> v.session.client.stopped
    ensures v.session.client.stopped ==> v.session.client.ended
  {
    Here(c, w);
    Then(c, w, w, Net(P.Opened));
    MoveKeeps(c, afterSeq, w, Net(P.Opened));
    var open := Step(c, w, Net(P.Opened));
    v := FetchOpen(c, afterSeq, open);
    Transitive(c, w, open, v);
  }

  /** The next event is in the generator's hands. */
  ghost predicate HoldsNext(w: World) {
    && !w.session.client.stopped && w.session.conn.Some?
    && var conn := w.session.conn.value;
       conn.wire == [] && conn.wasOpen && conn.gen.phase.Yielding? && conn.gen.phase.batch != []
       && IsRow(w.run.row.events, w.session.client.lastSeq + 1, conn.gen.phase.batch[0])
  }

  lemma FetchOpen(c: L.Config, afterSeq: nat, w: World) returns (v: World)
    requires WorldInv(afterSeq, w) && !w.session.client.stopped && w.session.client.lastSeq < w.run.row.lastSeq
    requires w.session.conn.Some?
    requires w.session.conn.value.wire == [] && w.session.conn.value.wasOpen
    requires w.session.conn.value.gen == StreamServer.Start(w.session.client.lastSeq)
    ensures Reaches(c, w, v) && WorldInv(afterSeq, v)
    ensures v.run == w.run && v.session.client.lastSeq == w.session.client.lastSeq + 1
    ensures IsTerminalEvent(w.run.row.events[w.session.client.lastSeq + 1]) <==> v.session.client.stopped
    ensures v.session.client.stopped ==> v.session.client.ended
  {
    var fetched := FetchNext(c, afterSeq, w);
    v := SendOne(c, afterSeq, fetched);
    Transitive(c, w, fetched, v);
  }

  lemma FetchNext(c: L.Config, afterSeq: nat, w: World) returns (v: World)
    requires WorldInv(afterSeq, w) && !w.session.client.stopped && w.session.client.lastSeq < w.run.row.lastSeq
    requires w.session.conn.Some?
    requires w.session.conn.value.wire == [] && w.session.conn.value.wasOpen
    requires w.session.conn.value.gen == StreamServer.Start(w.session.client.lastSeq)
    ensures Reaches(c, w, v) && WorldInv(afterSeq, v) && HoldsNext(v)
    ensures v.run == w.run && v.session.client == w.session.client
  {
    var batch := SomeBatch(w.run.row, w.session.client.lastSeq);
    var fetch := Net(P.Fetch(batch));
    FetchHolds(c, w, batch);
    Here(c, w);
    Then(c, w, w, fetch);
    MoveKeeps(c, afterSeq, w, fetch);
    v := Step(c, w, fetch);
  }

  lemma FetchHolds(c: L.Config, w: World, batch: seq<Wire>)
    requires !w.session.client.stopped && w.session.conn.Some?
    requires w.session.conn.value.wire == [] && w.session.conn.value.wasOpen
    requires w.session.conn.value.gen == StreamServer.Start(w.session.client.lastSeq)
    requires IsBatch(w.run.row.events, w.session.client.lastSeq, BatchLimit, batch)
    requires batch != [] && IsRow(w.run.row.events, w.session.client.lastSeq + 1, batch[0])
    ensures Enabled(c, w, Net(P.Fetch(batch)))
    ensures var v := Step(c, w, Net(P.Fetch(batch)));
            HoldsNext(v) && v.run == w.run && v.session.client == w.session.client
  {
  }

  lemma SomeBatch(row: Row, after: nat) returns (batch: seq<Wire>)
    requires Dense(row) && after < row.lastSeq
    ensures IsBatch(row.events, after, BatchLimit, batch)
    ensures batch != [] && IsRow(row.events, after + 1, batch[0])
  {
    batch := NextRows(row, after, BatchLimit);
    NextRowsIsBatch(row, after, BatchLimit);
  }

  lemma SendOne(c: L.Config, afterSeq: nat, w: World) returns (v: World)
    requires WorldInv(afterSeq, w) && HoldsNext(w)
    ensures Reaches(c, w, v) && WorldInv(afterSeq, v)
    ensures v.run == w.run && v.session.client.lastSeq == w.session.client.lastSeq + 1
    ensures IsTerminalEvent(w.run.row.events[w.session.client.lastSeq + 1]) <==> v.session.client.stopped
    ensures v.session.client.stopped ==> v.session.client.ended
  {
    Here(c, w);
    Then(c, w, w, Net(P.Send));
    MoveKeeps(c, afterSeq, w, Net(P.Send));
    var w1 := Step(c, w, Net(P.Send));
    Then(c, w, w1, Net(P.Deliver));
    MoveKeeps(c, afterSeq, w1, Net(P.Deliver));
    v := Step(c, w1, Net(P.Deliver));
  }

  /** The terminal event is not lost: however the stream stands, an open client of a finished
      run that has something left to receive can still be brought to its end. */
  lemma {:induction false} CanEnd(c: L.Config, afterSeq: nat, w: World) returns (v: World)
    requires !c.lateCancels && FullInv(c, afterSeq, w) && w.run.pc.Finished?
    requires !w.session.client.stopped && w.session.client.lastSeq < w.run.row.lastSeq
    ensures Reaches(c, w, v) && v.session.client.ended
    decreases w.run.row.lastSeq - w.session.client.lastSeq
  {
    v := OneFurther(c, afterSeq, w);
    if !v.session.client.stopped {
      assert v.session.client.lastSeq != w.run.row.lastSeq;
      var u := CanEnd(c, afterSeq, v);
      Transitive(c, w, v, u);
      v := u;
    }
  }

  /** On a finished run, an open stream can be brought to its end exactly when it was opened
      before the end of the log. Opened at the end (a page that read `last_seq` after the
      run finished), it reconnects for ever and never reports the end. */
  lemma EndIffOpenedBefore(c: L.Config, afterSeq: nat, w: World)
    requires !c.lateCancels && FullInv(c, afterSeq, w) && w.run.pc.Finished?
    requires !w.session.client.stopped
    ensures (exists v :: Reaches(c, w, v) && v.session.client.ended) <==> afterSeq < w.run.row.lastSeq
  {
    UnendedIsBehind(c, afterSeq, w);
    if afterSeq < w.run.row.lastSeq {
      var v := CanEnd(c, afterSeq, w);
    } else {
      forall v | Reaches(c, w, v) ensures !v.session.client.ended {
        var ms :| Valid(c, w, ms) && After(c, w, ms) == v;
        FinishedStays(c, afterSeq, w, ms);
        NeverEnds(c, afterSeq, v);
      }
    }
  }

  lemma {:induction false} FinishedStays(c: L.Config, afterSeq: nat, w: World, ms: seq<Move>)
    requires !c.lateCancels && FullInv(c, afterSeq, w) && w.run.pc.Finished? && Valid(c, w, ms)
    ensures FullInv(c, afterSeq, After(c, w, ms)) && After(c, w, ms).run.row == w.run.row
    decreases ms
  {
    if ms != [] {
      MoveKeeps(c, afterSeq, w, ms[0]);
      if ms[0].Run? {
        L.StepKeeps(c, w.run, ms[0].l);
        L.StepAdvances(c, w.run, ms[0].l);
      }
      FinishedStays(c, afterSeq, Step(c, w, ms[0]), ms[1..]);
    }
  }

  lemma NeverEnds(c: L.Config, afterSeq: nat, v: World)
    requires !c.lateCancels && FullInv(c, afterSeq, v) && afterSeq >= v.run.row.lastSeq
    ensures !v.session.client.ended && v.session.client.delivered == []
  {
    SegmentEnds(v.run.row.events, afterSeq, v.session.client.delivered);
  }

  /** The same from any point of a run that is still going: a stream opened no later than the
      log stands can be brought to its end. */
  lemma OpenStreamCanEnd(c: L.Config, afterSeq: nat, w: World) returns (v: World)
    requires !c.lateCancels && FullInv(c, afterSeq, w) && !w.session.client.stopped
    requires afterSeq <= w.run.row.lastSeq && (w.run.pc.Finished? ==> afterSeq < w.run.row.lastSeq)
    ensures Reaches(c, w, v) && v.session.client.ended && v.run.pc.Finished?
  {
    if w.run.pc.Finished? {
      UnendedIsBehind(c, afterSeq, w);
      v := CanEnd(c, afterSeq, w);
      EndedFinished(c, afterSeq, w, v);
    } else {
      var s := L.CanFinish(c, w.run);
      var ls :| L.Valid(c, w.run, ls) && L.After(c, w.run, ls) == s;
      RunMoves(c, w, ls);
      var done := w.(run := s);
      ReachesFull(c, afterSeq, w, done);
      L.RunKeeps(c, w.run, ls);
      FinishGrows(c, w.run, s);
      UnendedIsBehind(c, afterSeq, done);
      v := CanEnd(c, afterSeq, done);
      Transitive(c, w, done, v);
      EndedFinished(c, afterSeq, w, v);
    }
  }

  lemma FinishGrows(c: L.Config, s: L.State, t: L.State)
    requires L.Inv(c, s) && L.Inv(c, t) && L.Advances(s, t) && !s.pc.Finished? && t.pc.Finished?
    ensures s.row.lastSeq < t.row.lastSeq
  {
    assert t.row.lastSeq in t.row.events && IsTerminalEvent(t.row.events[t.row.lastSeq]);
    assert s.row.lastSeq == t.row.lastSeq ==> t.row.lastSeq in s.row.events;
  }

  lemma ReachesFull(c: L.Config, afterSeq: nat, w: World, v: World)
    requires !c.lateCancels && FullInv(c, afterSeq, w) && Reaches(c, w, v)
    ensures FullInv(c, afterSeq, v)
  {
    var ms :| Valid(c, w, ms) && After(c, w, ms) == v;
    FullReached(c, afterSeq, w, ms);
  }

  lemma EndedFinished(c: L.Config, afterSeq: nat, w: World, v: World)
    requires !c.lateCancels && FullInv(c, afterSeq, w) && Reaches(c, w, v) && v.session.client.ended
    ensures v.run.pc.Finished?
  {
    ReachesFull(c, afterSeq, w, v);
    EndedIsComplete(c, afterSeq, v);
  }

  lemma {:induction false} RunMoves(c: L.Config, w: World, ls: seq<L.Label>)
    requires L.Valid(c, w.run, ls)
    ensures Reaches(c, w, w.(run := L.After(c, w.run, ls)))
    decreases ls
  {
    Here(c, w);
    if ls != [] {
      var next := Step(c, w, Run(ls[0]));
      Then(c, w, w, Run(ls[0]));
      RunMoves(c, next, ls[1..]);
      Transitive(c, w, next, w.(run := L.After(c, w.run, ls)));
    }
  }

  // ---- the server's final flush -------------------------------------------------------

  /** The final flush carries the terminal event exactly when the announcement is committed
      by then and within one batch of the generator's cursor; the stream can therefore end
      without it, between the status update and the announcement, and the client relies on
      its reconnect. */
  lemma FlushCarriesTheEnd(c: L.Config, afterSeq: nat, w: World, batch: seq<Wire>)
    requires !c.lateCancels && FullInv(c, afterSeq, w) && P.Enabled(w.run.row, w.session, P.Fetch(batch))
    ensures (exists i :: 0 <= i < |batch| && IsTerminalEvent(batch[i].event))
       <==> w.run.pc.Finished?
            && w.session.conn.value.gen.cursor < w.run.row.lastSeq <= w.session.conn.value.gen.cursor + BatchLimit
  {
    FlushBatch(c, w.run, w.session.conn.value.gen.cursor, batch);
  }

  lemma FlushBatch(c: L.Config, run: L.State, cursor: nat, batch: seq<Wire>)
    requires L.Inv(c, run) && IsBatch(run.row.events, cursor, BatchLimit, batch)
    ensures (exists i :: 0 <= i < |batch| && IsTerminalEvent(batch[i].event))
       <==> run.pc.Finished? && cursor < run.row.lastSeq <= cursor + BatchLimit
  {
    NextRowsIsBatch(run.row, cursor, BatchLimit);
    forall i | 0 <= i < |batch|
      ensures IsTerminalEvent(batch[i].event) <==> run.pc.Finished? && cursor + 1 + i == run.row.lastSeq
    {
      FlushRow(c, run, cursor, batch, i);
    }
    if run.pc.Finished? && cursor < run.row.lastSeq <= cursor + BatchLimit {
      assert IsTerminalEvent(batch[run.row.lastSeq - cursor - 1].event);
    }
  }

  lemma FlushRow(c: L.Config, run: L.State, cursor: nat, batch: seq<Wire>, i: nat)
    requires L.Inv(c, run) && IsSegment(run.row.events, cursor, batch) && i < |batch|
    ensures IsTerminalEvent(batch[i].event) <==> run.pc.Finished? && cursor + 1 + i == run.row.lastSeq
  {
    assert IsRow(run.row.events, cursor + 1 + i, batch[i]);
  }
}
