/** The server half of the event stream: the replay loop `_event_stream`, and where a
    reconnecting EventSource resumes. */
module StreamServer {
  import opened Options
  import opened RunEvents
  import opened RunLog

  const BatchLimit: nat := 500

  /** `after_seq`, raised by a numeric Last-Event-ID header. */
  function ResumeSeq(afterSeq: nat, lastEventId: Option<nat>): nat {
    match lastEventId
    case None => afterSeq
    case Some(id) => if afterSeq < id then id else afterSeq
  }

  /** The generator between two of its awaits. */
  datatype Phase =
    | Fetching
    | Yielding(batch: seq<Wire>)
    | Checking                       // an empty batch: about to read the status
    | FinalFetching                  // the status was terminal: about to flush
    | Flushing(batch: seq<Wire>)
    | Ended

  datatype Generator = Generator(cursor: nat, phase: Phase)

  function Start(afterSeq: nat): Generator {
    Generator(afterSeq, Fetching)
  }

  predicate HasBatch(p: Phase) {
    p.Yielding? || p.Flushing?
  }

  function TakeBatch(g: Generator, batch: seq<Wire>): Generator
    requires g.phase.Fetching? || g.phase.FinalFetching?
  {
    g.(phase := if g.phase.Fetching? then (if batch == [] then Checking else Yielding(batch))
                else (if batch == [] then Ended else Flushing(batch)))
  }

  function Advance(g: Generator): Generator
    requires HasBatch(g.phase) && g.phase.batch != []
  {
    var rest := g.phase.batch[1..];
    Generator(g.phase.batch[0].seqNo,
              if g.phase.Yielding? then (if rest == [] then Fetching else Yielding(rest))
              else (if rest == [] then Ended else Flushing(rest)))
  }

  function ReadStatus(g: Generator, status: Status): Generator
    requires g.phase.Checking?
  {
    g.(phase := if IsTerminal(status) then FinalFetching else Fetching)
  }

  /** The next rows of a dense log, as the query returns them. */
  function NextRows(row: Row, after: nat, limit: nat): (b: seq<Wire>)
    requires Dense(row)
    ensures |b| == if after < row.lastSeq then Min(limit, row.lastSeq - after) else 0
    ensures IsSegment(row.events, after, b)
    decreases if after < row.lastSeq then row.lastSeq - after else 0
  {
    if limit == 0 || row.lastSeq <= after then []
    else
      var rest := NextRows(row, after + 1, limit - 1);
      var b := [Wire(after + 1, row.events[after + 1])] + rest;
      assert IsSegment(row.events, after, b) by {
        SegmentJoin(row.events, after, [Wire(after + 1, row.events[after + 1])], rest);
      }
      b
  }

  /** The query's declarative answer and the consecutive rows are the same thing. */
  lemma NextRowsIsBatch(row: Row, after: nat, limit: nat)
    requires Dense(row)
    ensures IsBatch(row.events, after, limit, NextRows(row, after, limit))
    ensures forall b :: IsBatch(row.events, after, limit, b) ==> b == NextRows(row, after, limit)
  {
    var b := NextRows(row, after, limit);
    SegmentRows(row.events, after, b);
    BatchIsSegment(row, after, limit, b);
    forall b' | IsBatch(row.events, after, limit, b') ensures b' == b {
      BatchIsSegment(row, after, limit, b');
    }
  }

  // ---- the generator, query by query -----------------------------------------------------

  /** The generator once everything it has fetched is sent. */
  function Drained(g: Generator): Generator
    decreases if HasBatch(g.phase) then |g.phase.batch| else 0
  {
    if HasBatch(g.phase) && g.phase.batch != [] then Drained(Advance(g)) else g
  }

  function Pending(g: Generator): seq<Wire> {
    if HasBatch(g.phase) then g.phase.batch else []
  }

  /** What one query makes of the generator, and what it sends before its next one. */
  function Query(g: Generator, view: Row): (Generator, seq<Wire>)
    requires Dense(view)
  {
    if g.phase.Checking? then (ReadStatus(g, view.status), [])
    else if g.phase.Fetching? || g.phase.FinalFetching? then
      var fetched := TakeBatch(g, NextRows(view, g.cursor, BatchLimit));
      (Drained(fetched), Pending(fetched))
    else (g, [])
  }

  /** The same for all its queries. */
  function Serve(g: Generator, views: seq<Row>): (Generator, seq<Wire>)
    requires forall i :: 0 <= i < |views| ==> Dense(views[i])
    decreases views
  {
    if views == [] then (g, [])
    else
      var (next, now) := Query(g, views[0]);
      var (last, later) := Serve(next, views[1..]);
      (last, now + later)
  }

  lemma {:induction false} DrainedIs(g: Generator, events: map<nat, Event>)
    requires HasBatch(g.phase) && g.phase.batch != [] && IsSegment(events, g.cursor, g.phase.batch)
    ensures Drained(g) == Generator(g.cursor + |g.phase.batch|, if g.phase.Yielding? then Fetching else Ended)
    decreases |g.phase.batch|
  {
    var batch := g.phase.batch;
    assert IsRow(events, g.cursor + 1 + 0, batch[0]);
    if |batch| > 1 {
      SegmentDrop(events, g.cursor, batch);
      DrainedIs(Advance(g), events);
    }
  }

  lemma FetchFinds(cursor: nat, view: Row, final: bool, found: seq<Wire>)
    requires Dense(view) && found == NextRows(view, cursor, BatchLimit)
    ensures Query(Generator(cursor, if final then FinalFetching else Fetching), view)
         == (Generator(cursor + |found|, if final then Ended else if found == [] then Checking else Fetching), found)
  {
    var g := Generator(cursor, if final then FinalFetching else Fetching);
    if found != [] { DrainedIs(TakeBatch(g, found), view.events); }
  }

  lemma ServeOn(g: Generator, views: seq<Row>, v: nat, next: Generator, found: seq<Wire>)
    requires v < |views| && forall i :: 0 <= i < |views| ==> Dense(views[i])
    requires Query(g, views[v]) == (next, found)
    ensures Serve(g, views[v..]).0 == Serve(next, views[v + 1..]).0
    ensures Serve(g, views[v..]).1 == found + Serve(next, views[v + 1..]).1
  {
    assert views[v..][0] == views[v] && views[v..][1..] == views[v + 1..];
  }

  lemma {:induction false} ServedOut(g: Generator, views: seq<Row>)
    requires g.phase.Ended? && forall i :: 0 <= i < |views| ==> Dense(views[i])
    ensures Serve(g, views) == (g, [])
    decreases views
  {
    if views != [] {
      ServedOut(g, views[1..]);
      assert Query(g, views[0]) == (g, []);
      ServeOn(g, views, 0, g, []);
      assert views[0..] == views;
    }
  }

  ghost predicate AllDense(views: seq<Row>) {
    forall i :: 0 <= i < |views| ==> Dense(views[i])
  }

  /** The loop from query v on: what it sends, where it stands then, and whether it ended. */
  function Looped(views: seq<Row>, v: nat, cursor: nat): (seq<Wire>, nat, bool)
    requires v <= |views| && AllDense(views)
    decreases |views| - v, 1
  {
    if v == |views| then ([], cursor, false)
    else
      var found := NextRows(views[v], cursor, BatchLimit);
      if found == [] then Checked(views, v + 1, cursor)
      else Joined(found, Looped(views, v + 1, cursor + |found|))
  }

  /** The same from where it is about to read the status. */
  function Checked(views: seq<Row>, v: nat, cursor: nat): (seq<Wire>, nat, bool)
    requires v <= |views| && AllDense(views)
    decreases |views| - v, 2
  {
    if v == |views| then ([], cursor, false)
    else if IsTerminal(views[v].status) then Flush(views, v + 1, cursor)
    else Looped(views, v + 1, cursor)
  }

  /** The final flush. */
  function Flush(views: seq<Row>, v: nat, cursor: nat): (seq<Wire>, nat, bool)
    requires v <= |views| && AllDense(views)
  {
    if v == |views| then ([], cursor, false)
    else
      var flushed := NextRows(views[v], cursor, BatchLimit);
      (flushed, cursor + |flushed|, true)
  }

  function Joined(sent: seq<Wire>, rest: (seq<Wire>, nat, bool)): (seq<Wire>, nat, bool) {
    (sent + rest.0, rest.1, rest.2)
  }

  lemma JoinedOn(sent: seq<Wire>, found: seq<Wire>, rest: (seq<Wire>, nat, bool))
    ensures Joined(sent, Joined(found, rest)) == Joined(sent + found, rest)
  {
    assert sent + (found + rest.0) == (sent + found) + rest.0;
  }

  /** The generator does the same. */
  ghost predicate Agrees(g: Generator, views: seq<Row>, v: nat, looped: (seq<Wire>, nat, bool))
    requires v <= |views| && AllDense(views)
  {
    var (last, sent) := Serve(g, views[v..]);
    sent == looped.0 && last.cursor == looped.1 && (last.phase.Ended? <==> looped.2)
  }

  lemma AgreesOn(g: Generator, views: seq<Row>, v: nat, next: Generator, found: seq<Wire>, looped: (seq<Wire>, nat, bool))
    requires v < |views| && AllDense(views)
    requires Query(g, views[v]) == (next, found) && Agrees(next, views, v + 1, looped)
    ensures Agrees(g, views, v, Joined(found, looped))
    ensures found == [] ==> Agrees(g, views, v, looped)
  {
    ServeOn(g, views, v, next, found);
    assert [] + looped.0 == looped.0;
  }

  lemma AgreesAtLast(g: Generator, views: seq<Row>)
    requires !g.phase.Ended? && AllDense(views)
    ensures Agrees(g, views, |views|, ([], g.cursor, false))
  {
    assert views[|views|..] == [];
  }

  lemma FlushAgrees(views: seq<Row>, v: nat, cursor: nat)
    requires v <= |views| && AllDense(views)
    ensures Agrees(Generator(cursor, FinalFetching), views, v, Flush(views, v, cursor))
  {
    if v == |views| {
      AgreesAtLast(Generator(cursor, FinalFetching), views);
    } else {
      var flushed := NextRows(views[v], cursor, BatchLimit);
      var ended := Generator(cursor + |flushed|, Ended);
      FetchFinds(cursor, views[v], true, flushed);
      ServedOut(ended, views[v + 1..]);
      AgreesOn(Generator(cursor, FinalFetching), views, v, ended, flushed, ([], cursor + |flushed|, true));
      assert flushed + [] == flushed;
    }
  }

  lemma FetchAgrees(views: seq<Row>, v: nat, cursor: nat, found: seq<Wire>, reached: nat, rest: (seq<Wire>, nat, bool))
    requires v < |views| && AllDense(views)
    requires found == NextRows(views[v], cursor, BatchLimit) && reached == cursor + |found|
    requires Agrees(Generator(reached, if found == [] then Checking else Fetching), views, v + 1, rest)
    ensures Agrees(Generator(cursor, Fetching), views, v, if found == [] then rest else Joined(found, rest))
  {
    FetchFinds(cursor, views[v], false, found);
    AgreesOn(Generator(cursor, Fetching), views, v, Generator(reached, if found == [] then Checking else Fetching), found, rest);
  }

  lemma LoopedIs(views: seq<Row>, v: nat, cursor: nat, found: seq<Wire>, reached: nat)
    requires v < |views| && AllDense(views)
    requires found == NextRows(views[v], cursor, BatchLimit) && reached == cursor + |found|
    ensures Looped(views, v, cursor)
         == if found == [] then Checked(views, v + 1, reached) else Joined(found, Looped(views, v + 1, reached))
  {
  }

  /** The loop is the generator of the protocol, query by query: they send the same rows, end
      together, and stand at the same place when the client goes away. */
  lemma {:induction false} LoopIsGenerator(views: seq<Row>, v: nat, cursor: nat, looped: (seq<Wire>, nat, bool))
    requires v <= |views| && AllDense(views) && looped == Looped(views, v, cursor)
    ensures Agrees(Generator(cursor, Fetching), views, v, looped)
    decreases |views| - v, 1
  {
    if v == |views| {
      AgreesAtLast(Generator(cursor, Fetching), views);
    } else {
      var found := NextRows(views[v], cursor, BatchLimit);
      var reached := cursor + |found|;
      LoopedIs(views, v, cursor, found, reached);
      var rest := if found == [] then Checked(views, v + 1, reached) else Looped(views, v + 1, reached);
      if found == [] {
        CheckedIsGenerator(views, v + 1, reached, rest);
      } else {
        LoopIsGenerator(views, v + 1, reached, rest);
      }
      FetchAgrees(views, v, cursor, found, reached, rest);
    }
  }

  lemma {:induction false} CheckedIsGenerator(views: seq<Row>, v: nat, cursor: nat, checked: (seq<Wire>, nat, bool))
    requires v <= |views| && AllDense(views) && checked == Checked(views, v, cursor)
    ensures Agrees(Generator(cursor, Checking), views, v, checked)
    decreases |views| - v, 2
  {
    var checking := Generator(cursor, Checking);
    if v == |views| {
      AgreesAtLast(checking, views);
    } else if IsTerminal(views[v].status) {
      FlushAgrees(views, v + 1, cursor);
      AgreesOn(checking, views, v, Generator(cursor, FinalFetching), [], checked);
    } else {
      LoopIsGenerator(views, v + 1, cursor, checked);
      AgreesOn(checking, views, v, Generator(cursor, Fetching), [], checked);
    }
  }

  // ---- the loop over a growing log -------------------------------------------------------

  /** Successive states of one run's log, as the loop's queries see them. */
  ghost predicate History(views: seq<Row>) {
    && (forall i :: 0 <= i < |views| ==> Dense(views[i]))
    && (forall i, j {:trigger Extends(views[i], views[j])} :: 0 <= i < j < |views| ==> Extends(views[i], views[j]))
  }

  /** The i-th query saw a terminal status; everything the query before it could see was sent,
      and up to one batch more of what the query after it could see. */
  ghost predicate Flushed(views: seq<Row>, i: nat, cursor: nat) {
    && 0 < i < |views| - 1 && IsTerminal(views[i].status)
    && views[i - 1].lastSeq <= cursor
    && Min(views[i + 1].lastSeq, views[i - 1].lastSeq + BatchLimit) <= cursor
  }

  ghost predicate EndedFlushed(views: seq<Row>, cursor: nat) {
    exists i :: Flushed(views, i, cursor)
  }

  /** By query `now`, what was visible at query i was sent, or one full batch for every two
      queries since; and if the run was terminal at i already, every query since sent something. */
  ghost predicate Progress(views: seq<Row>, i: nat, now: nat, afterSeq: nat, cursor: nat) {
    && i < |views| && i <= now && afterSeq <= cursor
    && Min(views[i].lastSeq, afterSeq + BatchLimit * ((now - i) / 2)) <= cursor
    && (TerminalFrom(views, i) ==> now - i <= cursor - afterSeq)
  }

  ghost predicate TerminalFrom(views: seq<Row>, i: nat) {
    forall j :: i <= j < |views| ==> IsTerminal(views[j].status)
  }

  /** Every query up to `now` made its progress. */
  ghost predicate GetsOn(views: seq<Row>, now: nat, afterSeq: nat, cursor: nat) {
    now <= |views| && afterSeq <= cursor && forall i :: 0 <= i < now ==> Progress(views, i, now, afterSeq, cursor)
  }

  /** The same once the views have run out; the loop may have been waiting for up to two more. */
  ghost predicate GotOn(views: seq<Row>, afterSeq: nat, cursor: nat) {
    afterSeq <= cursor && forall i :: 0 <= i < |views| ==> Served(views, i, afterSeq, cursor)
  }

  ghost predicate Served(views: seq<Row>, i: nat, afterSeq: nat, cursor: nat)
    requires i < |views| && afterSeq <= cursor
  {
    && Min(views[i].lastSeq, afterSeq + BatchLimit * ((|views| - i) / 2)) <= cursor
    && (TerminalFrom(views, i) ==> |views| - i <= cursor - afterSeq + 2)
  }

  /** `_event_stream` against an arbitrarily growing log: `views` are the database states its
      queries meet, in order; running out of them is the client going away. Everything sent
      is the log's rows from `afterSeq` on, once each and in order. The stream only ends after
      sending all that was committed when it last found nothing new, and after seeing a
      terminal status. It gets on: two queries are enough for a batch or for everything there
      is; and on a run that is already terminal it ends within two queries more than there are
      rows to send. It is the generator of the protocol (`LoopIsGenerator`). */
  method EventStream(afterSeq: nat, views: seq<Row>) returns (sent: seq<Wire>, lastSeq: nat, ended: bool)
    requires |views| > 0 && History(views)
    ensures lastSeq == afterSeq + |sent| && IsSegment(views[|views| - 1].events, afterSeq, sent)
    ensures ended ==> EndedFlushed(views, lastSeq)
    ensures !ended ==> GotOn(views, afterSeq, lastSeq)
    ensures (sent, lastSeq, ended) == Looped(views, 0, afterSeq)
  {
    sent, lastSeq, ended := [], afterSeq, false;
    ghost var all := Looped(views, 0, afterSeq);
    LoopSends(views, 0, afterSeq, afterSeq);
    JoinedNothing(all);
    var v := 0;
    while v < |views|
      invariant 0 <= v <= |views| && !ended
      invariant Joined(sent, Looped(views, v, lastSeq)) == all
    {
      var events := NextRows(views[v], lastSeq, BatchLimit);
      var reached := lastSeq + |events|;
      LoopedIs(views, v, lastSeq, events, reached);
      v := v + 1;
      if events != [] {
        JoinedOn(sent, events, Looped(views, v, reached));
        sent, lastSeq := sent + events, reached;
      } else if v < |views| && IsTerminal(views[v].status) {
        JoinedLast(sent, Flush(views, v + 1, lastSeq));
        v := v + 1;
        if v < |views| {
          events := NextRows(views[v], lastSeq, BatchLimit);
          sent, lastSeq, ended := sent + events, lastSeq + |events|, true;
        }
        return;
      } else if v < |views| {
        v := v + 1;
      }
    }
    JoinedLast(sent, ([], lastSeq, false));
  }

  lemma JoinedLast(sent: seq<Wire>, last: (seq<Wire>, nat, bool))
    ensures Joined(sent, last).0 == sent + last.0
    ensures last.0 == [] ==> Joined(sent, last).0 == sent
  {
  }

  lemma JoinedNothing(rest: (seq<Wire>, nat, bool))
    ensures Joined([], rest) == rest
  {
    assert [] + rest.0 == rest.0;
  }

  /** What the loop has to show from some point on: the rows from there, once each and in order,
      and either everything flushed or a fair share of the log. */
  ghost predicate Delivers(views: seq<Row>, afterSeq: nat, cursor: nat, looped: (seq<Wire>, nat, bool))
    requires |views| > 0
  {
    && looped.1 == cursor + |looped.0| && IsSegment(views[|views| - 1].events, cursor, looped.0)
    && (looped.2 ==> EndedFlushed(views, looped.1)) && (!looped.2 ==> GotOn(views, afterSeq, looped.1))
  }

  /** The loop shows it from every query before which it got on so far. */
  lemma {:induction false} LoopSends(views: seq<Row>, v: nat, afterSeq: nat, cursor: nat)
    requires v <= |views| && |views| > 0 && History(views) && GetsOn(views, v, afterSeq, cursor)
    ensures Delivers(views, afterSeq, cursor, Looped(views, v, cursor))
    decreases |views| - v
  {
    if v == |views| {
      RanOut(views, afterSeq, cursor);
    } else {
      var found := NextRows(views[v], cursor, BatchLimit);
      if found == [] {
        if v + 1 < |views| && !IsTerminal(views[v + 1].status) {
          FoundNothing(views, v, afterSeq, cursor);
          LoopSends(views, v + 2, afterSeq, cursor);
        } else {
          EndSends(views, v, afterSeq, cursor);
        }
      } else {
        var reached := cursor + |found|;
        FoundMore(views, v, afterSeq, cursor, reached);
        LoopSends(views, v + 1, afterSeq, reached);
        SentFirst(views, v, cursor, found, reached, Looped(views, v + 1, reached).0);
      }
    }
  }

  lemma EndSends(views: seq<Row>, v: nat, afterSeq: nat, cursor: nat)
    requires v < |views| && History(views) && GetsOn(views, v, afterSeq, cursor)
    requires NextRows(views[v], cursor, BatchLimit) == [] && (v + 1 < |views| ==> IsTerminal(views[v + 1].status))
    ensures Delivers(views, afterSeq, cursor, Checked(views, v + 1, cursor))
  {
    if v + 2 < |views| {
      var flushed := NextRows(views[v + 2], cursor, BatchLimit);
      FlushCovers(views, v + 1, cursor, cursor + |flushed|);
      SentFirst(views, v + 2, cursor, flushed, cursor + |flushed|, []);
      assert flushed + [] == flushed;
    } else {
      CutOff(views, v, afterSeq, cursor);
    }
  }

  lemma FoundMore(views: seq<Row>, v: nat, afterSeq: nat, cursor: nat, later: nat)
    requires v < |views| && History(views) && GetsOn(views, v, afterSeq, cursor)
    requires cursor < later == cursor + |NextRows(views[v], cursor, BatchLimit)|
    ensures GetsOn(views, v + 1, afterSeq, later)
  {
    var now := v + 1;
    forall i | 0 <= i < now ensures Progress(views, i, now, afterSeq, later) {
      if i < v {
        assert Progress(views, i, v, afterSeq, cursor);
        ProgressOn(views, i, v, afterSeq, cursor, later);
      }
    }
  }

  lemma ProgressOn(views: seq<Row>, i: nat, v: nat, afterSeq: nat, cursor: nat, later: nat)
    requires i < v < |views| && History(views) && Progress(views, i, v, afterSeq, cursor)
    requires cursor < later == cursor + |NextRows(views[v], cursor, BatchLimit)|
    ensures Progress(views, i, v + 1, afterSeq, later)
  {
    Grows(views, i, v);
    OneBatchMore(views[i].lastSeq, views[v].lastSeq, v - i, v + 1 - i, afterSeq, cursor, later);
  }

  lemma Grows(views: seq<Row>, i: nat, v: nat)
    requires i <= v < |views| && History(views)
    ensures views[i].lastSeq <= views[v].lastSeq
  {
    assert i < v ==> Extends(views[i], views[v]);
  }

  lemma OneBatchMore(seen: nat, visible: nat, queries: nat, more: nat, afterSeq: nat, cursor: nat, later: nat)
    requires more == queries + 1
    requires seen <= visible && Min(seen, afterSeq + BatchLimit * (queries / 2)) <= cursor
    requires later == cursor + if cursor < visible then Min(BatchLimit, visible - cursor) else 0
    ensures Min(seen, afterSeq + BatchLimit * (more / 2)) <= later
  {
    assert more / 2 <= queries / 2 + 1;
  }

  /** A fetch that finds nothing leaves nothing behind, at this query or an earlier one. */
  lemma Caught(views: seq<Row>, v: nat, cursor: nat, i: nat)
    requires i <= v < |views| && History(views) && NextRows(views[v], cursor, BatchLimit) == []
    ensures views[i].lastSeq <= cursor
  {
    assert |NextRows(views[v], cursor, BatchLimit)| == 0;
    Grows(views, i, v);
  }

  lemma FoundNothing(views: seq<Row>, v: nat, afterSeq: nat, cursor: nat)
    requires v + 1 < |views| && History(views) && GetsOn(views, v, afterSeq, cursor)
    requires NextRows(views[v], cursor, BatchLimit) == [] && !IsTerminal(views[v + 1].status)
    ensures GetsOn(views, v + 2, afterSeq, cursor)
  {
    var now := v + 2;
    forall i | 0 <= i < now ensures Progress(views, i, now, afterSeq, cursor) {
      assert !TerminalFrom(views, i);
      if i <= v {
        Caught(views, v, cursor, i);
      }
    }
  }

  lemma CutOff(views: seq<Row>, v: nat, afterSeq: nat, cursor: nat)
    requires v < |views| <= v + 2 && History(views) && GetsOn(views, v, afterSeq, cursor)
    requires NextRows(views[v], cursor, BatchLimit) == []
    ensures GotOn(views, afterSeq, cursor)
  {
    forall i | 0 <= i < |views| ensures Served(views, i, afterSeq, cursor) {
      assert i < v ==> Progress(views, i, v, afterSeq, cursor);
      if i <= v {
        Caught(views, v, cursor, i);
      }
    }
  }

  lemma RanOut(views: seq<Row>, afterSeq: nat, cursor: nat)
    requires GetsOn(views, |views|, afterSeq, cursor)
    ensures GotOn(views, afterSeq, cursor)
  {
    forall i | 0 <= i < |views| ensures Served(views, i, afterSeq, cursor) {
      assert Progress(views, i, |views|, afterSeq, cursor);
    }
  }

  lemma FlushCovers(views: seq<Row>, i: nat, cursor: nat, later: nat)
    requires 0 < i < |views| - 1 && History(views) && IsTerminal(views[i].status)
    requires NextRows(views[i - 1], cursor, BatchLimit) == []
    requires later == cursor + |NextRows(views[i + 1], cursor, BatchLimit)|
    ensures EndedFlushed(views, later)
  {
    assert |NextRows(views[i - 1], cursor, BatchLimit)| == 0;
    assert Flushed(views, i, later);
  }

  lemma SentFirst(views: seq<Row>, v: nat, cursor: nat, found: seq<Wire>, reached: nat, later: seq<Wire>)
    requires v < |views| && History(views) && reached == cursor + |found|
    requires IsSegment(views[v].events, cursor, found)
    requires IsSegment(views[|views| - 1].events, reached, later)
    ensures IsSegment(views[|views| - 1].events, cursor, found + later)
  {
    if v < |views| - 1 {
      SegmentExtends(views[v], views[|views| - 1], cursor, found);
    }
    SegmentJoin(views[|views| - 1].events, cursor, found, later);
  }
}
