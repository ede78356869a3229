/** What a supervised run's log contains: every commit with its author, and the supervisor's
    share of them as a function of what happened. */
module RunJournal {
  import opened Options
  import opened RunEvents
  import opened RunLog
  import opened RunLifecycle
  import opened Sequences

  /** A committed event, and whether the supervisor wrote it or the stderr drainer. */
  datatype Entry = Entry(own: bool, event: Event)

  /** What a step commits. */
  function Wrote(s: State, l: Label): seq<Entry> {
    if l.Commit? && s.begun.Some? && !Refused(s.row, s.begun.value) then [Entry(true, s.begun.value.event)]
    else if l.DrainCommit? && s.drainer.Draining? && s.drainer.begun.Some? && !Refused(s.row, s.drainer.begun.value)
    then [Entry(false, s.drainer.begun.value.event)]
    else []
  }

  function Journal(c: Config, s: State, ls: seq<Label>): seq<Entry>
    requires Valid(c, s, ls)
    decreases ls
  {
    if ls == [] then [] else Wrote(s, ls[0]) + Journal(c, Step(c, s, ls[0]), ls[1..])
  }

  function Events(j: seq<Entry>): seq<Event> {
    seq(|j|, i requires 0 <= i < |j| => j[i].event)
  }

  function OwnEvents(j: seq<Entry>): seq<Event> {
    if j == [] then [] else (if j[0].own then [j[0].event] else []) + OwnEvents(j[1..])
  }

  /** The log in order. */
  ghost function Rows(row: Row): seq<Event>
    requires Dense(row)
  {
    seq(row.lastSeq, i requires 0 <= i < row.lastSeq => row.events[i + 1])
  }

  // ---- the journal is the log ------------------------------------------------------------

  lemma CommitWrites(row: Row, a: Append)
    requires Dense(row) && 1 <= a.seqNo <= row.lastSeq + 1 && !Refused(row, a)
    ensures Dense(CommitAppend(row, a)) && Rows(CommitAppend(row, a)) == Rows(row) + [a.event]
  {
    CommitKeepsDense(row, a);
  }

  lemma StepWrites(c: Config, s: State, l: Label)
    requires !c.lateCancels && Inv(c, s) && Enabled(c, s, l)
    ensures Dense(Step(c, s, l).row) && Rows(Step(c, s, l).row) == Rows(s.row) + Events(Wrote(s, l))
  {
    StepKeeps(c, s, l);
    if l.Commit? {
      CommitRow(s);
      if !Refused(s.row, s.begun.value) { CommitWrites(s.row, s.begun.value); }
    } else if l.DrainCommit? {
      if !Refused(s.row, s.drainer.begun.value) { CommitWrites(s.row, s.drainer.begun.value); }
    } else {
      OtherKeepsLog(c, s, l);
      assert Wrote(s, l) == [];
    }
  }

  lemma CommitRow(s: State)
    requires Appending(s.pc) && s.begun.Some?
    ensures CommitStep(s).row == CommitAppend(s.row, s.begun.value)
  {
    if Refused(s.row, s.begun.value) {
      RefusedFields(s);
    } else {
      AcceptedFields(s);
    }
  }

  lemma {:induction false} JournalIsTheLog(c: Config, s: State, ls: seq<Label>)
    requires !c.lateCancels && Inv(c, s) && Valid(c, s, ls)
    ensures Dense(After(c, s, ls).row) && Rows(After(c, s, ls).row) == Rows(s.row) + Events(Journal(c, s, ls))
    decreases ls
  {
    if ls != [] {
      StepWrites(c, s, ls[0]);
      StepKeeps(c, s, ls[0]);
      JournalIsTheLog(c, Step(c, s, ls[0]), ls[1..]);
      EventsConcat(Wrote(s, ls[0]), Journal(c, Step(c, s, ls[0]), ls[1..]));
      Assoc(Rows(s.row), Events(Wrote(s, ls[0])), Events(Journal(c, Step(c, s, ls[0]), ls[1..])));
    }
  }

  lemma EventsConcat(a: seq<Entry>, b: seq<Entry>)
    ensures Events(a + b) == Events(a) + Events(b)
  {
  }

  lemma {:induction false} OwnConcat(a: seq<Entry>, b: seq<Entry>)
    ensures OwnEvents(a + b) == OwnEvents(a) + OwnEvents(b)
  {
    if a == [] {
      assert a + b == b;
    } else {
      TailConcat(a, b);
      OwnConcat(a[1..], b);
      Assoc(if a[0].own then [a[0].event] else [], OwnEvents(a[1..]), OwnEvents(b));
    }
  }

  /** What is not the supervisor's is a log line of the worker's stderr. */
  lemma {:induction false} OthersAreLogLines(c: Config, s: State, ls: seq<Label>)
    requires !c.lateCancels && Inv(c, s) && Valid(c, s, ls)
    ensures forall e :: e in Journal(c, s, ls) && !e.own ==> e.event.LogLine?
    decreases ls
  {
    if ls != [] {
      StepKeeps(c, s, ls[0]);
      OthersAreLogLines(c, Step(c, s, ls[0]), ls[1..]);
    }
  }

  // ---- the supervisor's share ----------------------------------------------------------------

  /** What one worker line becomes; a done line is only remembered. */
  function Image(e: WorkerEvent): seq<Event> {
    match e
    case WDone(_) => []
    case WFatal(error) => [LogLine("Run failed: " + error)]
    case WResult(name) => [ResultReported(name)]
    case WStarted(category, _) => [ProgressNote(category)]
    case WFinished(category, _) => [ProgressNote(category)]
    case WLog(message) => [LogLine(message)]
  }

  function Images(events: seq<WorkerEvent>): seq<Event> {
    if events == [] then [] else Images(Sequences.Init(events)) + Image(Last(events))
  }

  /** The first run_status, and the images of the first n worker lines. */
  function Story(c: Config, n: nat): seq<Event>
    requires n <= |c.script|
  {
    [RunStatus(Running)] + Images(c.script[..n])
  }

  lemma StoryNext(c: Config, n: nat)
    requires n < |c.script|
    ensures Story(c, n + 1) == Story(c, n) + Image(c.script[n])
  {
    assert Sequences.Init(c.script[..n + 1]) == c.script[..n] && Last(c.script[..n + 1]) == c.script[n];
    Assoc([RunStatus(Running)], Images(c.script[..n]), Image(c.script[n]));
  }

  /** All of it, or all but the event whose append was interrupted. */
  predicate Nearly(told: seq<Event>, all: seq<Event>) {
    told <= all && |all| <= |told| + 1
  }

  /** What supervision adds after the worker's lines, once it is over. */
  function Closing(c: Config, s: State): seq<Event>
    requires s.consumed <= |c.script|
  {
    if s.crashed then []
    else if s.timedOut then [TimeoutLine]
    else if Heard(c.script[..s.consumed]).None? && !s.cancelAtExit then [ExitLine]
    else []
  }

  /** As much of it as is written, with the last run_status. */
  function Closed(c: Config, s: State): seq<Event>
    requires s.consumed <= |c.script| && (s.pc.Finished? ==> s.terminal.Some?)
  {
    if s.pc.ExitLogging? then []
    else Closing(c, s) + if s.pc.Finished? then [RunStatus(s.terminal.value)] else []
  }

  predicate Before(pc: Pc) {
    pc.Created? || pc.Registered? || pc.MarkedRunning? || pc.Starting?
  }

  /** The supervisor's share of the log in state s. */
  ghost predicate Told(c: Config, s: State, mine: seq<Event>)
    requires s.consumed <= |c.script| && (s.pc.Finished? ==> s.terminal.Some?)
  {
    var all := Story(c, s.consumed);
    if Before(s.pc) then mine == []
    else if s.pc.Consuming? then mine == all
    else if s.pc.Emitting? then mine + [s.pc.event] == all
    else if s.pc.TimeoutLogging? then s.pc.event == TimeoutLine && Nearly(mine, all)
    else
      && (s.pc.ExitLogging? ==> s.pc.event == ExitLine && Closing(c, s) == [ExitLine])
      && Ends(mine, all, Closed(c, s), s.crashed || s.timedOut)
  }

  /** `mine` is `all`, or nearly so if it was cut short, and then the closing events. */
  ghost predicate Ends(mine: seq<Event>, all: seq<Event>, closed: seq<Event>, cut: bool) {
    exists body :: mine == body + closed && Nearly(body, all) && (!cut ==> body == all)
  }

  lemma EndsGrows(mine: seq<Event>, all: seq<Event>, closed: seq<Event>, cut: bool, e: Event)
    requires Ends(mine, all, closed, cut)
    ensures Ends(mine + [e], all, closed + [e], cut)
  {
    var body :| mine == body + closed && Nearly(body, all) && (!cut ==> body == all);
    Assoc(body, closed, [e]);
    assert mine + [e] == body + (closed + [e]);
  }

  lemma EndsHere(mine: seq<Event>, all: seq<Event>, cut: bool)
    requires Nearly(mine, all) && (!cut ==> mine == all)
    ensures Ends(mine, all, [], cut)
  {
    assert mine == mine + [];
  }

  /** A worker line leaves the supervisor appending its image, if it has one. */
  lemma HandleImage(s: State, e: WorkerEvent)
    requires s.pc.Consuming?
    ensures Handle(s, e).pc.Consuming? ==> Image(e) == []
    ensures Handle(s, e).pc.Emitting? ==> Image(e) == [Handle(s, e).pc.event]
  {
  }

  lemma ConsumeTells(c: Config, s: State, mine: seq<Event>)
    requires Inv(c, s) && Enabled(c, s, Consume) && Told(c, s, mine)
    ensures Told(c, Step(c, s, Consume), mine)
  {
    var n, e := s.consumed, c.script[s.consumed];
    StoryNext(c, n);
    assert Story(c, n) + [] == Story(c, n);
    HandleFrame(s.(consumed := n + 1), e);
    HandleImage(s.(consumed := n + 1), e);
  }

  lemma LeaveTells(c: Config, s: State, terminal: Option<Status>, mine: seq<Event>)
    requires s.consumed <= |c.script| && Supervising(s.pc)
    requires s.crashed ==> terminal.Some?
    requires s.timedOut && !s.crashed ==> terminal.Some? && Ends(mine, Story(c, s.consumed), [TimeoutLine], true)
    requires s.crashed ==> Nearly(mine, Story(c, s.consumed))
    requires !s.crashed && !s.timedOut ==> mine == Story(c, s.consumed) && terminal == Heard(c.script[..s.consumed])
    ensures Told(c, Leave(s, terminal), mine)
  {
    if s.crashed || !s.timedOut {
      EndsHere(mine, Story(c, s.consumed), s.crashed || s.timedOut);
    }
    assert Closing(c, Leave(s, terminal)) + [] == Closing(c, Leave(s, terminal));
  }

  lemma CrashTells(c: Config, s: State, mine: seq<Event>)
    requires Inv(c, s) && Supervising(s.pc) && Told(c, s, mine)
    ensures Told(c, CrashOut(s), mine)
  {
    LeaveTells(c, s.(crashed := true), Some(Failed), mine);
  }

  lemma EofTells(c: Config, s: State, mine: seq<Event>)
    requires Inv(c, s) && Enabled(c, s, Eof) && Told(c, s, mine)
    ensures Told(c, Step(c, s, Eof), mine)
  {
    LeaveTells(c, s, s.terminal, mine);
  }

  lemma TimeoutTells(c: Config, s: State, mine: seq<Event>)
    requires Inv(c, s) && Enabled(c, s, Timeout) && Told(c, s, mine)
    ensures Told(c, Step(c, s, Timeout), mine)
  {
  }

  lemma RefusedTells(c: Config, s: State, mine: seq<Event>)
    requires Inv(c, s) && Enabled(c, s, Commit) && Told(c, s, mine) && Refused(s.row, s.begun.value)
    ensures Told(c, CommitStep(s), mine)
  {
    CommitKeepsDense(s.row, s.begun.value);
    CrashTells(c, s, mine);
  }

  lemma EarlyCommitTells(c: Config, s: State, mine: seq<Event>)
    requires Inv(c, s) && Enabled(c, s, Commit) && Told(c, s, mine) && !Refused(s.row, s.begun.value)
    requires s.pc.Starting? || s.pc.Emitting?
    ensures Told(c, CommitStep(s), mine + [s.begun.value.event])
  {
    assert s.pc.Starting? ==> Images(c.script[..0]) == [] && [RunStatus(Running)] + [] == [RunStatus(Running)];
    assert mine == [] ==> mine + [s.begun.value.event] == [s.begun.value.event];
  }

  lemma TimeoutCommitTells(c: Config, s: State, mine: seq<Event>)
    requires Inv(c, s) && Enabled(c, s, Commit) && Told(c, s, mine) && !Refused(s.row, s.begun.value)
    requires s.pc.TimeoutLogging?
    ensures Told(c, CommitStep(s), mine + [s.begun.value.event])
  {
    var committed := s.(row := CommitAppend(s.row, s.begun.value), begun := None);
    EndsHere(mine, Story(c, s.consumed), true);
    EndsGrows(mine, Story(c, s.consumed), [], true, TimeoutLine);
    assert [] + [TimeoutLine] == [TimeoutLine];
    LeaveTells(c, committed, committed.terminal, mine + [TimeoutLine]);
  }

  lemma LastCommitTells(c: Config, s: State, mine: seq<Event>)
    requires Inv(c, s) && Enabled(c, s, Commit) && Told(c, s, mine) && !Refused(s.row, s.begun.value)
    requires s.pc.ExitLogging? || s.pc.Announcing?
    ensures Told(c, CommitStep(s), mine + [s.begun.value.event])
  {
    var closed := Closed(c, s);
    EndsGrows(mine, Story(c, s.consumed), closed, s.crashed || s.timedOut, s.begun.value.event);
    assert s.pc.ExitLogging? ==> closed + [ExitLine] == [ExitLine] + [];
    assert s.pc.Announcing? ==> closed == Closing(c, s) + [] == Closing(c, s);
    assert Closed(c, CommitStep(s)) == closed + [s.begun.value.event];
  }

  lemma CommitTells(c: Config, s: State, mine: seq<Event>)
    requires Inv(c, s) && Enabled(c, s, Commit) && Told(c, s, mine)
    ensures Told(c, CommitStep(s), mine + OwnEvents(Wrote(s, Commit)))
  {
    if Refused(s.row, s.begun.value) {
      RefusedTells(c, s, mine);
      assert mine + [] == mine;
    } else {
      assert OwnEvents(Wrote(s, Commit)) == [s.begun.value.event] + [] == [s.begun.value.event];
      if s.pc.Starting? || s.pc.Emitting? {
        EarlyCommitTells(c, s, mine);
      } else if s.pc.TimeoutLogging? {
        TimeoutCommitTells(c, s, mine);
      } else {
        LastCommitTells(c, s, mine);
      }
    }
  }

  /** Between the steps that write, `Told` depends on little. */
  lemma SameTold(c: Config, s: State, t: State, mine: seq<Event>)
    requires s.consumed == t.consumed <= |c.script| && !s.pc.Finished? && !t.pc.Finished? && Told(c, s, mine)
    requires t.crashed == s.crashed && t.timedOut == s.timedOut && t.cancelAtExit == s.cancelAtExit
    requires t.pc == s.pc || (Before(s.pc) && Before(t.pc))
             || ((s.pc.Finalizing? || s.pc.StatusWritten?) && (t.pc.StatusWritten? || t.pc.Announcing?))
    ensures Told(c, t, mine)
  {
  }

  lemma QuietTells(c: Config, s: State, l: Label, mine: seq<Event>)
    requires !c.lateCancels && Inv(c, s) && Enabled(c, s, l) && Told(c, s, mine)
    requires Light(l) && !l.Timeout?
    ensures Step(c, s, l).consumed == s.consumed
    ensures Step(c, s, l).pc.Finished? ==> Step(c, s, l).terminal.Some?
    ensures Told(c, Step(c, s, l), mine)
  {
    if Aside(l) {
      AsideFrame(c, s, l);
    } else {
      PlainFlags(c, s, l);
      PlainMoves(c, s, l);
    }
    if !s.pc.Finished? {
      SameTold(c, s, Step(c, s, l), mine);
    }
  }

  /** Where a plain step other than a timeout can take the supervisor. */
  lemma PlainMoves(c: Config, s: State, l: Label)
    requires Enabled(c, s, l) && Light(l) && !Aside(l) && !l.Timeout?
    ensures var t := Step(c, s, l);
            && t.terminal == s.terminal
            && (t.pc == s.pc || (Before(s.pc) && Before(t.pc))
                || ((s.pc.Finalizing? || s.pc.StatusWritten?) && (t.pc.StatusWritten? || t.pc.Announcing?)))
  {
  }

  lemma StepTells(c: Config, s: State, l: Label, mine: seq<Event>)
    requires !c.lateCancels && Inv(c, s) && Enabled(c, s, l) && Told(c, s, mine)
    ensures Inv(c, Step(c, s, l)) && Told(c, Step(c, s, l), mine + OwnEvents(Wrote(s, l)))
  {
    StepKeeps(c, s, l);
    if l.Commit? {
      CommitTells(c, s, mine);
    } else {
      assert OwnEvents(Wrote(s, l)) == [] && mine + [] == mine;
      if l.Consume? {
        ConsumeTells(c, s, mine);
      } else if l.Eof? {
        EofTells(c, s, mine);
      } else if l.Timeout? {
        TimeoutTells(c, s, mine);
      } else if l.Crash? {
        CrashTells(c, s, mine);
      } else {
        QuietTells(c, s, l, mine);
      }
    }
  }

  lemma {:induction false} RunTells(c: Config, s: State, ls: seq<Label>, mine: seq<Event>)
    requires !c.lateCancels && Inv(c, s) && Valid(c, s, ls) && Told(c, s, mine)
    ensures Inv(c, After(c, s, ls)) && Told(c, After(c, s, ls), mine + OwnEvents(Journal(c, s, ls)))
    decreases ls
  {
    if ls == [] {
      assert mine + [] == mine;
    } else {
      var now, rest := Wrote(s, ls[0]), Journal(c, Step(c, s, ls[0]), ls[1..]);
      StepTells(c, s, ls[0], mine);
      RunTells(c, Step(c, s, ls[0]), ls[1..], mine + OwnEvents(now));
      OwnConcat(now, rest);
      Assoc(mine, OwnEvents(now), OwnEvents(rest));
    }
  }

  /** The supervisor persists every event: at every moment of a supervised run the log is the
      journal of its commits, in order; what the supervisor did not write are log lines of the
      worker's stderr; and what it wrote is the first run_status, the images of the worker lines
      read so far in order, and the closing events, with at most the event of one interrupted
      append missing, and that only after a timeout, a crash or a collision. */
  lemma LogContents(c: Config, ls: seq<Label>)
    requires Articulate(c) && !c.lateCancels && Valid(c, RunLifecycle.Init(), ls)
    ensures var s, j := After(c, RunLifecycle.Init(), ls), Journal(c, RunLifecycle.Init(), ls);
            && Inv(c, s) && Rows(s.row) == Events(j)
            && (forall e :: e in j && !e.own ==> e.event.LogLine?)
            && Told(c, s, OwnEvents(j))
  {
    var init := RunLifecycle.Init();
    InitInv(c);
    JournalIsTheLog(c, init, ls);
    OthersAreLogLines(c, init, ls);
    assert Rows(init.row) == [] && [] + Events(Journal(c, init, ls)) == Events(Journal(c, init, ls));
    assert [] + OwnEvents(Journal(c, init, ls)) == OwnEvents(Journal(c, init, ls));
    RunTells(c, init, ls, []);
  }

  /** A finished run without timeout, crash or collision: the supervisor's share is exactly the
      first run_status, the image of every worker line it read, the note of an unexplained exit
      if no last word was read and no cancel came, and the run_status of the stored status. */
  lemma UndisturbedLog(c: Config, ls: seq<Label>)
    requires Articulate(c) && !c.lateCancels && Valid(c, RunLifecycle.Init(), ls)
    requires Timeout !in ls && Crash !in ls && !Collided(c, RunLifecycle.Init(), ls)
    requires After(c, RunLifecycle.Init(), ls).pc.Finished?
    ensures var s := After(c, RunLifecycle.Init(), ls);
            && s.consumed <= |c.script|
            && OwnEvents(Journal(c, RunLifecycle.Init(), ls))
               == Story(c, s.consumed)
                  + (if Heard(c.script[..s.consumed]).None? && Cancel !in ls then [ExitLine] else [])
                  + [RunStatus(s.row.status)]
  {
    var s := After(c, RunLifecycle.Init(), ls);
    LogContents(c, ls);
    InitInv(c);
    History(c, RunLifecycle.Init(), ls);
    var mine, all := OwnEvents(Journal(c, RunLifecycle.Init(), ls)), Story(c, s.consumed);
    assert Ends(mine, all, Closed(c, s), false);
    assert Closed(c, s) == Closing(c, s) + [RunStatus(s.row.status)];
    Assoc(all, Closing(c, s), [RunStatus(s.row.status)]);
  }

  // ---- the drainer's share -------------------------------------------------------------------

  function OtherEvents(j: seq<Entry>): seq<Event> {
    if j == [] then [] else (if j[0].own then [] else [j[0].event]) + OtherEvents(j[1..])
  }

  lemma {:induction false} OtherConcat(a: seq<Entry>, b: seq<Entry>)
    ensures OtherEvents(a + b) == OtherEvents(a) + OtherEvents(b)
  {
    if a == [] {
      assert a + b == b;
    } else {
      TailConcat(a, b);
      OtherConcat(a[1..], b);
      Assoc(if a[0].own then [] else [a[0].event], OtherEvents(a[1..]), OtherEvents(b));
    }
  }

  /** The event that a line of the worker's stderr becomes. */
  function Stderr(l: Label): seq<Event> {
    if l.DrainLine? then [LogLine("[worker] " + l.text)] else []
  }

  /** What the drainer has written, of the lines it has read: all of them, but for the one it is
      appending, and for one more once it is over, which ended its appends or was cut off. */
  predicate Drained(s: State, others: seq<Event>, lines: seq<Event>) {
    && (Before(s.pc) ==> s.drainer.Asleep?)
    && match s.drainer
       case Asleep => others == lines == []
       case Reading => others == lines
       case Draining(event, _) => others + [event] == lines
       case Over => Nearly(others, lines)
  }

  /** What a step that is not the drainer's own does to it. */
  lemma DrainerMoves(c: Config, s: State, l: Label)
    requires !c.lateCancels && Inv(c, s) && Enabled(c, s, l)
    requires !l.DrainLine? && !l.DrainBegin? && !l.DrainCommit? && !l.DrainEof?
    requires Before(s.pc) ==> s.drainer.Asleep?
    ensures var t := Step(c, s, l);
            && (t.drainer == s.drainer || t.drainer.Over? || (s.drainer.Asleep? && t.drainer.Reading?))
            && (Before(t.pc) ==> t.drainer.Asleep?)
  {
    if l.Commit? {
      if Refused(s.row, s.begun.value) { RefusedFields(s); } else { CommitMoves(s); }
    } else if l.Consume? {
      HandleFrame(s.(consumed := s.consumed + 1), c.script[s.consumed]);
    } else if l.Eof? {
      LeaveFrame(s, s.terminal);
    } else if l.Crash? {
      LeaveFrame(s.(crashed := true), Some(Failed));
    }
  }

  lemma CommitMoves(s: State)
    requires Appending(s.pc) && s.begun.Some? && !Refused(s.row, s.begun.value)
    requires Before(s.pc) ==> s.drainer.Asleep?
    ensures var t := CommitStep(s);
            && (t.drainer == s.drainer || t.drainer.Over? || (s.drainer.Asleep? && t.drainer.Reading?))
            && !Before(t.pc)
  {
  }

  lemma DrainerStep(c: Config, s: State, l: Label, others: seq<Event>, lines: seq<Event>)
    requires !c.lateCancels && Inv(c, s) && Enabled(c, s, l) && Drained(s, others, lines)
    ensures Drained(Step(c, s, l), others + OtherEvents(Wrote(s, l)), lines + Stderr(l))
  {
    if l.DrainCommit? {
      assert OtherEvents(Wrote(s, l)) == if Refused(s.row, s.drainer.begun.value) then [] else [s.drainer.event] + [];
      assert others + [] == others && lines + [] == lines && [s.drainer.event] + [] == [s.drainer.event];
      DrainFrame(c, s, l);
    } else {
      assert OtherEvents(Wrote(s, l)) == [] && others + [] == others && lines + [] == lines;
      if l.DrainLine? || l.DrainBegin? || l.DrainEof? {
        DrainFrame(c, s, l);
      } else {
        DrainerMoves(c, s, l);
      }
    }
  }

  lemma {:induction false} RunDrains(c: Config, s: State, ls: seq<Label>, others: seq<Event>, lines: seq<Event>)
    requires !c.lateCancels && Inv(c, s) && Valid(c, s, ls) && Drained(s, others, lines)
    ensures Drained(After(c, s, ls), others + OtherEvents(Journal(c, s, ls)), lines + FlatMap(Stderr, ls))
    decreases ls
  {
    if ls == [] {
      assert others + [] == others && lines + [] == lines;
    } else {
      var now, rest := Wrote(s, ls[0]), Journal(c, Step(c, s, ls[0]), ls[1..]);
      DrainerStep(c, s, ls[0], others, lines);
      StepKeeps(c, s, ls[0]);
      RunDrains(c, Step(c, s, ls[0]), ls[1..], others + OtherEvents(now), lines + Stderr(ls[0]));
      OtherConcat(now, rest);
      Assoc(others, OtherEvents(now), OtherEvents(rest));
      Assoc(lines, Stderr(ls[0]), FlatMap(Stderr, ls[1..]));
    }
  }

  /** The drainer's share of the log, at every moment of every run: the lines the worker wrote to
      its stderr, each behind "[worker] ", in the order they were read; all of them while it
      reads, all but the one being appended while it appends, and all or all but the last once it
      is over. */
  lemma DrainerShare(c: Config, ls: seq<Label>)
    requires Articulate(c) && !c.lateCancels && Valid(c, RunLifecycle.Init(), ls)
    ensures Drained(After(c, RunLifecycle.Init(), ls), OtherEvents(Journal(c, RunLifecycle.Init(), ls)), FlatMap(Stderr, ls))
  {
    var init := RunLifecycle.Init();
    InitInv(c);
    RunDrains(c, init, ls, [], []);
    assert [] + OtherEvents(Journal(c, init, ls)) == OtherEvents(Journal(c, init, ls));
    assert [] + FlatMap(Stderr, ls) == FlatMap(Stderr, ls);
  }
}
