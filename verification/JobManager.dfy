/** The supervisor of one run as the object it is: fields that the await-free segments of
    `start_run`, `_supervise`, `_drain_stderr` and `cancel_run` update in place. Each segment
    is proved to be one step of the transition system in RunLifecycle. */
module JobManager {
  import opened Options
  import opened RunEvents
  import opened RunLog
  import opened RunLifecycle
  import opened RunTheorems

  class RunSupervisor {
    const table: RunTable
    var pc: Pc
    var begun: Option<Append>
    var drainer: Drainer
    var registered: bool             // run_id in `_processes`
    var cancelRequested: bool        // run_id in `_cancel_requested`
    var terminalFromWorker: Option<Status>
    ghost var consumed: nat
    ghost var timedOut: bool
    ghost var crashed: bool
    ghost var cancelAtExit: bool

    ghost function Value(): State
      reads this, table
    {
      State(table.Value(), pc, begun, drainer, registered, cancelRequested, terminalFromWorker, consumed, NoLate,
            timedOut, crashed, cancelAtExit)
    }

    constructor ()
      ensures Value() == Init() && fresh(table)
    {
      table := new RunTable();
      pc, begun, drainer := Created, None, Asleep;
      registered, cancelRequested, terminalFromWorker := false, false, None;
      consumed, timedOut, crashed, cancelAtExit := 0, false, false, false;
    }

    method RegisterProcess(ghost c: Config)
      requires Enabled(c, Value(), Register)
      modifies this
      ensures Value() == Step(c, old(Value()), Register)
    {
      registered := true;
      pc := Registered;
    }

    method MarkAsRunning(ghost c: Config)
      requires Enabled(c, Value(), MarkRunning)
      modifies this, table
      ensures Value() == Step(c, old(Value()), MarkRunning)
    {
      table.UpdateStatus(Running);
      pc := MarkedRunning;
    }

    method TakeSnapshot(ghost c: Config)
      requires Enabled(c, Value(), Snapshot)
      modifies this
      ensures Value() == Step(c, old(Value()), Snapshot)
    {
      var event := RunStatus(table.status);
      pc := if pc.MarkedRunning? then Starting(event) else Announcing(event);
    }

    /** First half of any of the supervisor's appends. */
    method BeginAppend(ghost c: Config)
      requires Enabled(c, Value(), Begin)
      modifies this
      ensures Value() == Step(c, old(Value()), Begin)
    {
      var a := table.Begin(pc.event);
      begun := Some(a);
    }

    /** Second half, and where control goes from there; a refused commit raises. */
    method CommitAppend(ghost c: Config)
      requires Enabled(c, Value(), Commit)
      modifies this, table
      ensures Value() == Step(c, old(Value()), Commit)
    {
      var committed := table.Commit(begun.value);
      if !committed && (pc.Emitting? || pc.TimeoutLogging?) {
        OnCrash(c);
        return;
      }
      begun := None;
      if !committed {
        pc := Stuck;
        return;
      }
      match pc {
        case Starting(_) => pc, drainer := Consuming, Reading;
        case Emitting(_) => pc := Consuming;
        case TimeoutLogging(_) => LeaveSupervision();
        case ExitLogging(_) => pc := Finalizing;
        case Announcing(_) => pc := Finished;
      }
    }

    /** The body of the read loop for one parsed line. */
    method ConsumeLine(ghost c: Config, line: WorkerEvent)
      requires Enabled(c, Value(), Consume) && line == c.script[consumed]
      modifies this
      ensures Value() == Step(c, old(Value()), Consume)
    {
      consumed := consumed + 1;
      match line {
        case WDone(st) =>
          terminalFromWorker := Some(st.GetOr(Completed));
        case WFatal(error) =>
          terminalFromWorker := Some(Failed);
          pc := Emitting(LogLine("Run failed: " + error));
        case WResult(name) => pc := Emitting(ResultReported(name));
        case WStarted(category, _) => pc := Emitting(ProgressNote(category));
        case WFinished(category, _) => pc := Emitting(ProgressNote(category));
        case WLog(message) => pc := Emitting(LogLine(message));
      }
    }

    method OnTimeout(ghost c: Config)
      requires Enabled(c, Value(), Timeout)
      modifies this
      ensures Value() == Step(c, old(Value()), Timeout)
    {
      begun := None;
      terminalFromWorker := Some(TimedOut);
      timedOut := true;
      pc := TimeoutLogging(TimeoutLine);
    }

    method OnEof(ghost c: Config)
      requires Enabled(c, Value(), Eof)
      modifies this
      ensures Value() == Step(c, old(Value()), Eof)
    {
      LeaveSupervision();
    }

    method OnCrash(ghost c: Config)
      requires Supervising(pc)
      modifies this
      ensures Value() == CrashOut(old(Value()))
    {
      crashed := true;
      terminalFromWorker := Some(Failed);
      LeaveSupervision();
    }

    /** `finally`, then the verdict. */
    method LeaveSupervision()
      modifies this
      ensures Value() == Leave(old(Value()), old(terminalFromWorker))
    {
      drainer := Over;
      registered := false;
      begun := None;
      cancelAtExit := cancelRequested;
      pc := Finalizing;
      if terminalFromWorker.None? {
        if cancelRequested {
          terminalFromWorker := Some(Cancelled);
        } else {
          terminalFromWorker := Some(Failed);
          pc := ExitLogging(ExitLine);
        }
      } else if cancelRequested && terminalFromWorker.value == Completed {
        terminalFromWorker := Some(Cancelled);
      }
      cancelRequested := false;
    }

    method WriteFinalStatus(ghost c: Config)
      requires Enabled(c, Value(), WriteStatus)
      modifies this, table
      ensures Value() == Step(c, old(Value()), WriteStatus)
    {
      table.UpdateStatus(terminalFromWorker.GetOr(Failed));
      pc := StatusWritten;
    }

    /** `cancel_run` for a run whose process is registered. */
    method RequestCancel(ghost c: Config)
      requires Enabled(c, Value(), Cancel)
      modifies this
      ensures Value() == Step(c, old(Value()), Cancel)
    {
      cancelRequested := true;
    }

    method ReadStderrLine(ghost c: Config, text: string)
      requires Enabled(c, Value(), DrainLine(text))
      modifies this
      ensures Value() == Step(c, old(Value()), DrainLine(text))
    {
      drainer := Draining(LogLine("[worker] " + text), None);
    }

    method BeginStderrAppend(ghost c: Config)
      requires Enabled(c, Value(), DrainBegin)
      modifies this
      ensures Value() == Step(c, old(Value()), DrainBegin)
    {
      var a := table.Begin(drainer.event);
      drainer := drainer.(begun := Some(a));
    }

    method CommitStderrAppend(ghost c: Config)
      requires Enabled(c, Value(), DrainCommit)
      modifies this, table
      ensures Value() == Step(c, old(Value()), DrainCommit)
    {
      var committed := table.Commit(drainer.begun.value);
      drainer := if committed then Reading else Over;
    }

    method EndStderr(ghost c: Config)
      requires Enabled(c, Value(), DrainEof)
      modifies this
      ensures Value() == Step(c, old(Value()), DrainEof)
    {
      drainer := Over;
    }

    /** One step of whichever task the event loop resumes; `line` is the worker's next line. */
    method Resume(ghost c: Config, l: Label, line: Option<WorkerEvent>)
      requires Enabled(c, Value(), l) && !l.LateCancel?
      requires l.Consume? ==> line == Some(c.script[consumed])
      modifies this, table
      ensures Value() == Step(c, old(Value()), l)
    {
      if l.Register? {
        RegisterProcess(c);
      } else if l.MarkRunning? {
        MarkAsRunning(c);
      } else if l.Snapshot? {
        TakeSnapshot(c);
      } else if l.Begin? {
        BeginAppend(c);
      } else if l.Commit? {
        CommitAppend(c);
      } else if l.Consume? {
        ConsumeLine(c, line.value);
      } else if l.Eof? {
        OnEof(c);
      } else if l.Timeout? {
        OnTimeout(c);
      } else if l.Crash? {
        OnCrash(c);
      } else if l.WriteStatus? {
        WriteFinalStatus(c);
      } else {
        ResumeOther(c, l);
      }
    }

    method ResumeOther(ghost c: Config, l: Label)
      requires Enabled(c, Value(), l) && !l.LateCancel? && !Own(l)
      modifies this, table
      ensures Value() == Step(c, old(Value()), l)
    {
      CalmEnabled(c, Value(), l);
      if l.DrainLine? {
        ReadStderrLine(c, l.text);
      } else if l.DrainBegin? {
        BeginStderrAppend(c);
      } else if l.DrainCommit? {
        CommitStderrAppend(c);
      } else if l.DrainEof? {
        EndStderr(c);
      } else {
        RequestCancel(c);
      }
    }
  }

  /** A whole run: the object is created and its tasks are resumed in the order of the schedule.
      It ends in the state the transition system predicts, so what is proved of every run holds
      of the object: a dense log, and for a finished run one terminal event, the last, that
      carries the stored status. */
  method Supervise(c: Config, schedule: seq<Label>) returns (run: RunSupervisor)
    requires Articulate(c) && Valid(c, Init(), schedule) && LateCancel !in schedule
    ensures run.Value() == After(c, Init(), schedule)
    ensures Dense(run.Value().row) && !run.pc.Stuck? && NothingAfterAnnouncement(run.Value().row)
    ensures run.pc.Finished? ==>
              IsTerminal(run.table.status) && run.table.lastSeq in run.table.events
              && run.table.events[run.table.lastSeq] == RunStatus(run.table.status)
  {
    run := new RunSupervisor();
    var i, read := 0, 0;
    while i < |schedule|
      invariant 0 <= i <= |schedule| && fresh(run) && fresh(run.table) && read == run.consumed
      invariant Valid(c, run.Value(), schedule[i..])
      invariant After(c, run.Value(), schedule[i..]) == After(c, Init(), schedule)
    {
      var l := schedule[i];
      Due(c, run.Value(), schedule, i);
      ReadsOn(c, run.Value(), l);
      var line := if l.Consume? then Some(c.script[read]) else None;
      run.Resume(c, l, line);
      if l.Consume? {
        read := read + 1;
      }
      i := i + 1;
    }
    assert schedule[i..] == [];
    CalmRun(c, Init(), schedule);
    NoLateCancelKeepsPromises(c, schedule, []);
  }

  /** The next label of the schedule is due, and the rest follows from there. */
  lemma Due(c: Config, s: State, schedule: seq<Label>, i: nat)
    requires i < |schedule| && Valid(c, s, schedule[i..])
    ensures schedule[i] in schedule && Enabled(c, s, schedule[i])
    ensures Valid(c, Step(c, s, schedule[i]), schedule[i + 1..])
    ensures After(c, Step(c, s, schedule[i]), schedule[i + 1..]) == After(c, s, schedule[i..])
  {
    assert schedule[i..][0] == schedule[i] && schedule[i..][1..] == schedule[i + 1..];
  }

  lemma ReadsOn(c: Config, s: State, l: Label)
    requires Enabled(c, s, l)
    ensures l.Consume? ==> s.consumed < |c.script|
    ensures Step(c, s, l).consumed == s.consumed + if l.Consume? then 1 else 0
  {
    if l.Commit? {
      if Refused(s.row, s.begun.value) { RefusedFields(s); } else { AcceptedFields(s); }
    } else if l.Consume? {
      HandleFrame(s.(consumed := s.consumed + 1), c.script[s.consumed]);
    } else if l.Eof? {
      LeaveFrame(s, s.terminal);
    } else if l.Crash? {
      LeaveFrame(s.(crashed := true), Some(Failed));
    } else if Aside(l) {
      AsideFrame(c, s, l);
    } else {
      PlainFlags(c, s, l);
    }
  }
}
