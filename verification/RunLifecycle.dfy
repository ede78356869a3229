/** One run under supervision, as a labelled transition system. The tasks that touch the run
    (start_run and then the supervisor, the stderr drainer, and a cancel_run that finds no
    registered process) advance one await-free segment at a time, in any order; each database
    transaction is one step, and cancelling a task takes effect at a step boundary. */
module RunLifecycle {
  import opened Options
  import opened RunEvents
  import opened RunLog
  import Worker

  /** `script`: the lines the worker process writes if it is not killed; `lateCancels`: whether
      a cancel may arrive while no process is registered for the run. */
  datatype Config = Config(script: seq<WorkerEvent>, lateCancels: bool)

  /** The run of a given worker job. */
  function For(job: Worker.Job, lateCancels: bool): Config {
    Config(Worker.Transcript(job), lateCancels)
  }

  /** Every done or fatal line stands for a terminal status; the supervisor stores what it is
      told. */
  ghost predicate Articulate(c: Config) {
    forall e :: e in c.script && IsLastWord(e) ==> IsTerminal(WordStatus(e))
  }

  /** Where the start_run / supervisor task stands. */
  datatype Pc =
    | Created                        // the row exists, no process yet
    | Registered                     // process in `_processes`
    | MarkedRunning
    | Starting(event: Event)         // appending the first run_status
    | Consuming                      // inside `_consume`
    | Emitting(event: Event)         // `_consume` appending one event
    | TimeoutLogging(event: Event)
    | ExitLogging(event: Event)      // appending "exited unexpectedly"
    | Finalizing                     // `_finalize` entered
    | StatusWritten
    | Announcing(event: Event)       // appending the last run_status
    | Finished
    | Stuck                          // the supervisor died of an exception outside its try block

  datatype Drainer = Asleep | Reading | Draining(event: Event, begun: Option<Append>) | Over

  /** A cancel_run that found no registered process and finalizes the run itself. */
  datatype Late = NoLate | LateChecked | LateWritten | LateAnnouncing(event: Event, begun: Option<Append>) | LateDone

  datatype State = State(
    row: Row,
    pc: Pc,
    begun: Option<Append>,           // the supervisor task's open append
    drainer: Drainer,
    registered: bool,
    cancelRequested: bool,
    terminal: Option<Status>,        // `terminal_from_worker`
    consumed: nat,                   // lines read from the worker
    late: Late,
    timedOut: bool,                  // history: the run timeout fired
    crashed: bool,                   // history: the supervisor's `except Exception` ran
    cancelAtExit: bool)              // history: cancel was registered when supervision ended

  function Init(): State {
    State(NewRow, Created, None, Asleep, false, false, None, 0, NoLate, false, false, false)
  }

  datatype Label =
    | Register | MarkRunning | Snapshot | Begin | Commit
    | Consume | Eof | Timeout | Crash | WriteStatus
    | DrainLine(text: string) | DrainBegin | DrainCommit | DrainEof
    | Cancel
    | LateCancel | LateWrite | LateSnapshot | LateBegin | LateCommit

  const TimeoutLine: Event := LogLine("Run exceeded the configured timeout")
  const ExitLine: Event := LogLine("Worker exited unexpectedly")

  predicate Appending(pc: Pc) {
    pc.Starting? || pc.Emitting? || pc.TimeoutLogging? || pc.ExitLogging? || pc.Announcing?
  }

  predicate Supervising(pc: Pc) {
    pc.Consuming? || pc.Emitting? || pc.TimeoutLogging?
  }

  predicate Enabled(c: Config, s: State, l: Label) {
    match l
    case Register => s.pc.Created?
    case MarkRunning => s.pc.Registered?
    case Snapshot => s.pc.MarkedRunning? || s.pc.StatusWritten?
    case Begin => Appending(s.pc) && s.begun.None?
    case Commit => Appending(s.pc) && s.begun.Some?
    case Consume => s.pc.Consuming? && s.consumed < |c.script|
    case Eof => s.pc.Consuming?
    case Timeout => s.pc.Consuming? || s.pc.Emitting?
    case Crash => Supervising(s.pc)
    case WriteStatus => s.pc.Finalizing?
    case DrainLine(_) => s.drainer.Reading?
    case DrainBegin => s.drainer.Draining? && s.drainer.begun.None?
    case DrainCommit => s.drainer.Draining? && s.drainer.begun.Some?
    case DrainEof => s.drainer.Reading?
    case Cancel => s.registered
    case LateCancel => c.lateCancels && !s.registered && !IsTerminal(s.row.status) && s.late.NoLate?
    case LateWrite => s.late.LateChecked?
    case LateSnapshot => s.late.LateWritten?
    case LateBegin => s.late.LateAnnouncing? && s.late.begun.None?
    case LateCommit => s.late.LateAnnouncing? && s.late.begun.Some?
  }

  /** The `finally` block and the verdict after it: no await separates them. */
  function Leave(s: State, terminal: Option<Status>): State {
    var out := s.(drainer := Over, registered := false, begun := None, cancelRequested := false,
                  cancelAtExit := s.cancelRequested);
    match terminal
    case None =>
      if s.cancelRequested then out.(pc := Finalizing, terminal := Some(Cancelled))
      else out.(pc := ExitLogging(ExitLine), terminal := Some(Failed))
    case Some(t) =>
      out.(pc := Finalizing, terminal := Some(if t.Completed? && s.cancelRequested then Cancelled else t))
  }

  function CrashOut(s: State): State {
    Leave(s.(crashed := true), Some(Failed))
  }

  /** The status a done or fatal line stands for. */
  function WordStatus(e: WorkerEvent): Status
    requires IsLastWord(e)
  {
    match e
    case WDone(st) => st.GetOr(Completed)
    case WFatal(_) => Failed
  }

  /** `_consume` handling one parsed line. */
  function Handle(s: State, e: WorkerEvent): State {
    match e
    case WDone(st) => s.(terminal := Some(st.GetOr(Completed)))
    case WFatal(error) => s.(terminal := Some(Failed), pc := Emitting(LogLine("Run failed: " + error)))
    case WResult(name) => s.(pc := Emitting(ResultReported(name)))
    case WStarted(category, _) => s.(pc := Emitting(ProgressNote(category)))
    case WFinished(category, _) => s.(pc := Emitting(ProgressNote(category)))
    case WLog(message) => s.(pc := Emitting(LogLine(message)))
  }

  function CommitStep(s: State): State
    requires Appending(s.pc) && s.begun.Some?
  {
    var committed := s.(row := CommitAppend(s.row, s.begun.value), begun := None);
    if Refused(s.row, s.begun.value) then
      if s.pc.Emitting? || s.pc.TimeoutLogging? then CrashOut(s) else s.(begun := None, pc := Stuck)
    else match s.pc
      case Starting(_) => committed.(pc := Consuming, drainer := Reading)
      case Emitting(_) => committed.(pc := Consuming)
      case TimeoutLogging(_) => Leave(committed, committed.terminal)
      case ExitLogging(_) => committed.(pc := Finalizing)
      case Announcing(_) => committed.(pc := Finished)
  }

  function Step(c: Config, s: State, l: Label): State
    requires Enabled(c, s, l)
  {
    match l
    case Register => s.(pc := Registered, registered := true)
    case MarkRunning => s.(pc := MarkedRunning, row := s.row.(status := Running))
    case Snapshot =>
      s.(pc := if s.pc.MarkedRunning? then Starting(RunStatus(s.row.status)) else Announcing(RunStatus(s.row.status)))
    case Begin => s.(begun := Some(BeginAppend(s.row, s.pc.event)))
    case Commit => CommitStep(s)
    case Consume => Handle(s.(consumed := s.consumed + 1), c.script[s.consumed])
    case Eof => Leave(s, s.terminal)
    case Timeout =>
      s.(pc := TimeoutLogging(TimeoutLine), begun := None,
         terminal := Some(TimedOut), timedOut := true)
    case Crash => CrashOut(s)
    case WriteStatus =>
      s.(pc := StatusWritten, row := s.row.(status := s.terminal.GetOr(Failed)))
    case DrainLine(text) => s.(drainer := Draining(LogLine("[worker] " + text), None))
    case DrainBegin => s.(drainer := s.drainer.(begun := Some(BeginAppend(s.row, s.drainer.event))))
    case DrainCommit =>
      if Refused(s.row, s.drainer.begun.value) then s.(drainer := Over)
      else s.(row := CommitAppend(s.row, s.drainer.begun.value), drainer := Reading)
    case DrainEof => s.(drainer := Over)
    case Cancel => s.(cancelRequested := true)
    case LateCancel => s.(cancelRequested := true, late := LateChecked)
    case LateWrite => s.(row := s.row.(status := Cancelled), late := LateWritten)
    case LateSnapshot => s.(late := LateAnnouncing(RunStatus(s.row.status), None))
    case LateBegin => s.(late := s.late.(begun := Some(BeginAppend(s.row, s.late.event))))
    case LateCommit => s.(row := CommitAppend(s.row, s.late.begun.value), late := LateDone)
  }

  // ---- what the larger steps leave alone ----------------------------------------------

  /** The steps other than a commit, a worker line and the end of supervision. */
  predicate Light(l: Label) {
    !l.Commit? && !l.Consume? && !l.Eof? && !l.Crash?
  }

  lemma HandleFrame(s: State, e: WorkerEvent)
    requires s.pc.Consuming?
    ensures var t := Handle(s, e);
            && t.row == s.row && t.late == s.late && t.drainer == s.drainer && t.begun == s.begun && t.consumed == s.consumed
            && t.timedOut == s.timedOut && t.crashed == s.crashed
            && t.registered == s.registered && t.cancelRequested == s.cancelRequested && t.cancelAtExit == s.cancelAtExit
            && (t.pc.Consuming? || t.pc.Emitting?)
  {
  }

  lemma LeaveFrame(s: State, terminal: Option<Status>)
    ensures var t := Leave(s, terminal);
            && t.row == s.row && t.late == s.late && t.drainer.Over? && t.begun.None? && t.consumed == s.consumed
            && t.timedOut == s.timedOut && t.crashed == s.crashed
            && !t.registered && !t.cancelRequested && t.cancelAtExit == s.cancelRequested
            && (t.pc.Finalizing? || t.pc.ExitLogging?)
  {
  }

  /** The steps of the drainer and of a late canceller. */
  predicate Aside(l: Label) {
    || l.DrainLine? || l.DrainBegin? || l.DrainCommit? || l.DrainEof?
    || l.LateCancel? || l.LateWrite? || l.LateSnapshot? || l.LateBegin? || l.LateCommit?
  }

  lemma AsideFrame(c: Config, s: State, l: Label)
    requires Enabled(c, s, l) && Aside(l)
    ensures SameTask(s, Step(c, s, l)) && (l.LateCancel? || Step(c, s, l).cancelRequested == s.cancelRequested)
  {
    if l.DrainLine? || l.DrainBegin? || l.DrainCommit? || l.DrainEof? {
      DrainFrame(c, s, l);
    } else {
      LateFrame(c, s, l);
    }
  }

  /** The supervisor task stands where it stood. */
  predicate SameTask(s: State, t: State) {
    && t.pc == s.pc && t.begun == s.begun && t.terminal == s.terminal && t.consumed == s.consumed
    && t.timedOut == s.timedOut && t.crashed == s.crashed && t.cancelAtExit == s.cancelAtExit
  }

  lemma DrainFrame(c: Config, s: State, l: Label)
    requires Enabled(c, s, l) && (l.DrainLine? || l.DrainBegin? || l.DrainCommit? || l.DrainEof?)
    ensures SameTask(s, Step(c, s, l)) && Step(c, s, l).cancelRequested == s.cancelRequested
  {
  }

  lemma LateFrame(c: Config, s: State, l: Label)
    requires Enabled(c, s, l) && (l.LateCancel? || l.LateWrite? || l.LateSnapshot? || l.LateBegin? || l.LateCommit?)
    ensures SameTask(s, Step(c, s, l)) && (l.LateCancel? || Step(c, s, l).cancelRequested == s.cancelRequested)
  {
  }

  lemma AsideKeepsRow(c: Config, s: State, l: Label)
    requires Enabled(c, s, l) && Aside(l) && !l.DrainCommit? && s.late.NoLate?
    ensures Step(c, s, l).row == s.row
  {
  }

  lemma PlainFrame(c: Config, s: State, l: Label)
    requires Enabled(c, s, l) && Light(l) && !Aside(l)
    ensures var t := Step(c, s, l);
            && t.row.events == s.row.events && t.row.lastSeq == s.row.lastSeq
            && (l.MarkRunning? || l.WriteStatus? || t.row.status == s.row.status)
            && t.late == s.late
  {
  }

  lemma PlainFlags(c: Config, s: State, l: Label)
    requires Enabled(c, s, l) && Light(l) && !Aside(l)
    ensures var t := Step(c, s, l);
            && t.consumed == s.consumed && t.crashed == s.crashed && t.cancelAtExit == s.cancelAtExit
            && (t.timedOut <==> s.timedOut || l.Timeout?) && (t.cancelRequested <==> s.cancelRequested || l.Cancel?)
  {
  }

  // ---- runs of the system -------------------------------------------------------------

  predicate Valid(c: Config, s: State, ls: seq<Label>)
    decreases ls
  {
    ls == [] || (Enabled(c, s, ls[0]) && Valid(c, Step(c, s, ls[0]), ls[1..]))
  }

  function After(c: Config, s: State, ls: seq<Label>): State
    requires Valid(c, s, ls)
    decreases ls
  {
    if ls == [] then s else After(c, Step(c, s, ls[0]), ls[1..])
  }

  // ---- the stored status --------------------------------------------------------------

  /** What the last done or fatal line read so far says. */
  function Heard(events: seq<WorkerEvent>): Option<Status> {
    if events == [] then None
    else if IsLastWord(events[|events| - 1]) then Some(WordStatus(events[|events| - 1]))
    else Heard(events[..|events| - 1])
  }

  /** The status a supervised run ends with: a crash of the supervisor beats the timeout,
      which beats the worker's last word, which a registered cancel can only turn from
      "completed" into "cancelled"; with no word at all a cancel explains the exit. */
  function StoredStatus(heard: Option<Status>, timedOut: bool, crashed: bool, cancelled: bool): Status {
    if crashed then Failed
    else if timedOut then TimedOut
    else match heard
      case None => if cancelled then Cancelled else Failed
      case Some(t) => if t.Completed? && cancelled then Cancelled else t
  }

  lemma {:induction false} HeardIsLastWord(events: seq<WorkerEvent>)
    ensures var words := Worker.LastWords(events);
            && (forall i :: 0 <= i < |words| ==> IsLastWord(words[i]))
            && Heard(events) == (if words == [] then None else Some(WordStatus(words[|words| - 1])))
            && (words != [] && words[|words| - 1] == WDone(None) ==> Heard(events) == Some(Completed))
            && (words != [] && words[|words| - 1].WFatal? ==> Heard(events) == Some(Failed))
            && (forall status :: words != [] && words[|words| - 1] == WDone(Some(status)) ==> Heard(events) == Some(status))
  {
    if events != [] {
      var init, last := events[..|events| - 1], events[|events| - 1];
      HeardIsLastWord(init);
      assert events == init + [last];
      Worker.LastWordsConcat(init, [last]);
    }
  }

  /** What a worker's last word stands for. */
  lemma VerdictSays(job: Worker.Job)
    ensures var words := Worker.Verdict(job);
            && |words| <= 1
            && (words != [] ==>
                  && IsLastWord(words[0]) && IsTerminal(WordStatus(words[0]))
                  && (WordStatus(words[0]).Completed? ==> Worker.GoesThrough(job)))
  {
  }

  /** Every worker is articulate. */
  lemma WorkersAreArticulate(job: Worker.Job, lateCancels: bool)
    ensures Articulate(For(job, lateCancels))
  {
    var all := Worker.Transcript(job);
    Worker.PrefixWords(all, 0);
    Worker.TranscriptWords(job);
    VerdictSays(job);
  }

  lemma {:induction false} HeardIsTerminal(c: Config, n: nat)
    requires Articulate(c) && n <= |c.script|
    ensures Heard(c.script[..n]).Some? ==> IsTerminal(Heard(c.script[..n]).value)
  {
    if n > 0 {
      assert c.script[..n][..n - 1] == c.script[..n - 1];
      assert c.script[n - 1] in c.script;
      HeardIsTerminal(c, n - 1);
    }
  }

  /** Of whatever prefix of a worker's output was read: "completed" is heard only from a worker
      that iterated every enabled category. */
  lemma HeardFromWorker(job: Worker.Job, n: nat)
    requires n <= |Worker.Transcript(job)|
    ensures Heard(Worker.Transcript(job)[..n]) == Some(Completed) ==> Worker.GoesThrough(job)
  {
    var all := Worker.Transcript(job);
    Worker.TranscriptWords(job);
    VerdictSays(job);
    HeardOfAll(all, n, Worker.Verdict(job));
  }

  lemma HeardOfAll(all: seq<WorkerEvent>, n: nat, verdict: seq<WorkerEvent>)
    requires n <= |all| && Worker.LastWords(all) == verdict && |verdict| <= 1
    ensures Heard(all[..n]).Some? ==> verdict != [] && IsLastWord(verdict[0]) && Heard(all[..n]).value == WordStatus(verdict[0])
  {
    HeardIsLastWord(all[..n]);
    Worker.PrefixWords(all, n);
  }

  // ---- the inductive invariant --------------------------------------------------------

  ghost predicate LogInv(s: State) {
    && Dense(s.row)
    && (s.begun.Some? ==>
          Appending(s.pc) && s.begun.value.event == s.pc.event && 1 <= s.begun.value.seqNo <= s.row.lastSeq + 1)
    && (s.drainer.Draining? ==>
          && s.drainer.event.LogLine?
          && (s.drainer.begun.Some? ==>
                s.drainer.begun.value.event == s.drainer.event && 1 <= s.drainer.begun.value.seqNo <= s.row.lastSeq + 1))
    && (s.begun.Some? && !Supervising(s.pc) ==> s.begun.value.seqNo == s.row.lastSeq + 1)
  }

  ghost predicate ControlInv(s: State) {
    && s.late.NoLate?
    && !s.pc.Stuck?
    && (s.cancelRequested ==> s.registered)
    && (s.drainer.Reading? || s.drainer.Draining? ==> Supervising(s.pc))
    && (s.registered <==> s.pc.Registered? || s.pc.MarkedRunning? || s.pc.Starting? || Supervising(s.pc))
    && (s.pc.Starting? ==> s.pc.event == RunStatus(Running))
    && (s.pc.Emitting? || s.pc.TimeoutLogging? || s.pc.ExitLogging? ==> !s.pc.event.RunStatus?)
    && (Decided(s.pc) ==> s.terminal.Some? && IsTerminal(s.terminal.value))
    && (s.pc.Announcing? ==> s.pc.event == RunStatus(s.terminal.value))
    && s.row.status == (if s.pc.Created? || s.pc.Registered? then Queued
                        else if s.pc.StatusWritten? || s.pc.Announcing? || s.pc.Finished? then s.terminal.value
                        else Running)
  }

  predicate Decided(pc: Pc) {
    pc.ExitLogging? || pc.Finalizing? || pc.StatusWritten? || pc.Announcing? || pc.Finished?
  }

  ghost predicate TerminalInv(s: State) {
    && (forall k :: k in s.row.events && IsTerminalEvent(s.row.events[k]) ==> s.pc.Finished? && k == s.row.lastSeq)
    && (s.pc.Finished? ==>
          s.terminal.Some? && s.row.lastSeq in s.row.events && s.row.events[s.row.lastSeq] == RunStatus(s.terminal.value))
  }

  ghost predicate VerdictInv(c: Config, s: State) {
    && s.consumed <= |c.script|
    && (s.pc.Consuming? || s.pc.Emitting? ==>
          !s.timedOut && !s.crashed && s.terminal == Heard(c.script[..s.consumed]))
    && (s.pc.TimeoutLogging? ==> s.timedOut && !s.crashed && s.terminal == Some(TimedOut))
    && (Decided(s.pc) ==>
          s.terminal == Some(StoredStatus(Heard(c.script[..s.consumed]), s.timedOut, s.crashed, s.cancelAtExit)))
    && (!Supervising(s.pc) && !Decided(s.pc) ==>
          s.consumed == 0 && s.terminal.None? && !s.timedOut && !s.crashed)
  }

  ghost predicate Inv(c: Config, s: State) {
    Articulate(c) && LogInv(s) && ControlInv(s) && TerminalInv(s) && VerdictInv(c, s)
  }

  /** What holds of the log whatever tasks are appending to it, late cancels included: it is
      dense, and every open append is at most one ahead of it. */
  ghost predicate WritersInv(s: State) {
    && Dense(s.row)
    && OpenAppend(s.row, s.begun)
    && (s.drainer.Draining? ==> OpenAppend(s.row, s.drainer.begun))
    && (s.late.LateAnnouncing? ==> OpenAppend(s.row, s.late.begun))
  }

  ghost predicate OpenAppend(row: Row, begun: Option<Append>) {
    begun.Some? ==> 1 <= begun.value.seqNo <= row.lastSeq + 1
  }

  /** The invariant depends only on the row and the open appends. */
  lemma SameWriters(s: State, t: State)
    requires WritersInv(s) && t.row == s.row && t.late == s.late && (t.begun == s.begun || t.begun.None?)
    requires t.drainer == s.drainer || t.drainer.Over? || t.drainer.Reading?
    ensures WritersInv(t)
  {
  }

  lemma CommittedWriters(s: State, a: Append)
    requires WritersInv(s) && 1 <= a.seqNo <= s.row.lastSeq + 1
    ensures WritersInv(s.(row := CommitAppend(s.row, a), begun := None)) && Extends(s.row, CommitAppend(s.row, a))
  {
    CommitKeepsDense(s.row, a);
  }

  lemma RefusedFields(s: State)
    requires Appending(s.pc) && s.begun.Some? && Refused(s.row, s.begun.value)
    ensures var t := CommitStep(s);
            && t.row == s.row && t.late == s.late && t.begun.None? && t.consumed == s.consumed
            && (t.drainer == s.drainer || t.drainer.Over?)
  {
  }

  lemma AcceptedFields(s: State)
    requires Appending(s.pc) && s.begun.Some? && !Refused(s.row, s.begun.value)
    ensures var t := CommitStep(s);
            && t.row == CommitAppend(s.row, s.begun.value) && t.late == s.late && t.begun.None? && t.consumed == s.consumed
            && (t.drainer == s.drainer || t.drainer.Over? || t.drainer.Reading?)
  {
    if s.pc.TimeoutLogging? {
      LeaveFrame(s.(row := CommitAppend(s.row, s.begun.value), begun := None), s.terminal);
    }
  }

  lemma CommitWriters(c: Config, s: State)
    requires WritersInv(s) && Appending(s.pc) && s.begun.Some?
    ensures WritersInv(CommitStep(s)) && Extends(s.row, CommitStep(s).row)
  {
    var committed := s.(row := CommitAppend(s.row, s.begun.value), begun := None);
    CommittedWriters(s, s.begun.value);
    if Refused(s.row, s.begun.value) {
      RefusedFields(s);
    } else {
      AcceptedFields(s);
    }
    SameWriters(committed, CommitStep(s));
  }

  lemma OtherCommitWriters(c: Config, s: State, l: Label)
    requires WritersInv(s) && Enabled(c, s, l) && (l.DrainCommit? || l.LateCommit?)
    ensures WritersInv(Step(c, s, l)) && Extends(s.row, Step(c, s, l).row)
  {
    CommitKeepsDense(s.row, if l.DrainCommit? then s.drainer.begun.value else s.late.begun.value);
  }

  lemma ControlWriters(c: Config, s: State, l: Label)
    requires WritersInv(s) && Enabled(c, s, l)
    requires l.Register? || l.MarkRunning? || l.Snapshot? || l.Begin? || l.Timeout? || l.WriteStatus? || l.Cancel?
    ensures WritersInv(Step(c, s, l)) && Extends(s.row, Step(c, s, l).row)
  {
  }

  lemma WorkerWriters(c: Config, s: State, l: Label)
    requires WritersInv(s) && Enabled(c, s, l) && (l.Consume? || l.Eof? || l.Crash?)
    ensures WritersInv(Step(c, s, l)) && Extends(s.row, Step(c, s, l).row)
  {
    if l.Consume? {
      HandleWriters(s.(consumed := s.consumed + 1), c.script[s.consumed]);
    } else if l.Eof? {
      LeaveWriters(s, s.terminal);
    } else {
      LeaveWriters(s.(crashed := true), Some(Failed));
    }
  }

  lemma HandleWriters(s: State, e: WorkerEvent)
    requires WritersInv(s)
    ensures WritersInv(Handle(s, e)) && Handle(s, e).row == s.row
  {
    SameWriters(s, Handle(s, e));
  }

  lemma LeaveWriters(s: State, terminal: Option<Status>)
    requires WritersInv(s)
    ensures WritersInv(Leave(s, terminal)) && Leave(s, terminal).row == s.row
  {
    SameWriters(s, Leave(s, terminal));
  }

  lemma ReaderWriters(c: Config, s: State, l: Label)
    requires WritersInv(s) && Enabled(c, s, l)
    requires l.DrainLine? || l.DrainBegin? || l.DrainEof? || l.LateCancel? || l.LateWrite? || l.LateSnapshot? || l.LateBegin?
    ensures WritersInv(Step(c, s, l)) && Extends(s.row, Step(c, s, l).row)
  {
  }

  /** Dense log under interleaved writers: in every interleaving of the supervisor, the
      stderr drainer and a late canceller the log stays dense and is only ever extended. */
  lemma WritersKeep(c: Config, s: State, l: Label)
    requires WritersInv(s) && Enabled(c, s, l)
    ensures WritersInv(Step(c, s, l)) && Extends(s.row, Step(c, s, l).row)
  {
    if l.Commit? {
      CommitWriters(c, s);
    } else if l.DrainCommit? || l.LateCommit? {
      OtherCommitWriters(c, s, l);
    } else if l.DrainLine? || l.DrainBegin? || l.DrainEof? || l.LateCancel? || l.LateWrite? || l.LateSnapshot? || l.LateBegin? {
      ReaderWriters(c, s, l);
    } else if l.Consume? || l.Eof? || l.Crash? {
      WorkerWriters(c, s, l);
    } else {
      ControlWriters(c, s, l);
    }
  }

  lemma InitInv(c: Config)
    requires Articulate(c)
    ensures Inv(c, Init())
  {
  }

  lemma LeaveKeeps(c: Config, s: State, terminal: Option<Status>)
    requires Articulate(c) && LogInv(s) && ControlInv(s) && TerminalInv(s)
    requires Supervising(s.pc) && s.consumed <= |c.script|
    requires terminal.Some? ==> IsTerminal(terminal.value)
    requires StoredStatus(Heard(c.script[..s.consumed]), s.timedOut, s.crashed, s.cancelRequested)
          == StoredStatus(terminal, false, false, s.cancelRequested)
    ensures Inv(c, Leave(s, terminal)) && Leave(s, terminal).row == s.row
  {
  }

  lemma CrashKeeps(c: Config, s: State)
    requires Inv(c, s) && Supervising(s.pc)
    ensures Inv(c, CrashOut(s)) && CrashOut(s).row == s.row
  {
    LeaveKeeps(c, s.(crashed := true), Some(Failed));
  }

  lemma CommitKeeps(c: Config, s: State)
    requires Inv(c, s) && Enabled(c, s, Commit)
    ensures Inv(c, CommitStep(s)) && Extends(s.row, CommitStep(s).row)
  {
    CommitKeepsDense(s.row, s.begun.value);
    if Refused(s.row, s.begun.value) {
      CrashKeeps(c, s);
    } else {
      CommittedKeeps(c, s);
    }
  }

  lemma CommittedKeeps(c: Config, s: State)
    requires Inv(c, s) && Enabled(c, s, Commit) && !Refused(s.row, s.begun.value)
    ensures Inv(c, CommitStep(s))
  {
    if s.pc.TimeoutLogging? {
      TimeoutCommitKeeps(c, s);
    } else {
      PlainCommitKeeps(c, s);
    }
  }

  lemma TimeoutCommitKeeps(c: Config, s: State)
    requires Inv(c, s) && Enabled(c, s, Commit) && !Refused(s.row, s.begun.value) && s.pc.TimeoutLogging?
    ensures Inv(c, CommitStep(s))
  {
    CommitKeepsDense(s.row, s.begun.value);
    var committed := s.(row := CommitAppend(s.row, s.begun.value), begun := None);
    assert LogInv(committed) && ControlInv(committed) && TerminalInv(committed);
    LeaveKeeps(c, committed, committed.terminal);
  }

  lemma PlainCommitKeeps(c: Config, s: State)
    requires Inv(c, s) && Enabled(c, s, Commit) && !Refused(s.row, s.begun.value) && !s.pc.TimeoutLogging?
    ensures Inv(c, CommitStep(s))
  {
    CommitKeepsDense(s.row, s.begun.value);
  }

  lemma ConsumeKeeps(c: Config, s: State)
    requires Inv(c, s) && Enabled(c, s, Consume)
    ensures Inv(c, Step(c, s, Consume))
  {
    var script, n := c.script, s.consumed;
    assert script[..n + 1][..n] == script[..n];
    assert script[..n + 1][n] == script[n];
    HandleFrame(s.(consumed := n + 1), script[n]);
    HandleHears(s.(consumed := n + 1), script[n]);
  }

  lemma HandleHears(s: State, e: WorkerEvent)
    requires s.pc.Consuming?
    ensures var t := Handle(s, e);
            && t.terminal == (if IsLastWord(e) then Some(WordStatus(e)) else s.terminal)
            && (t.pc.Emitting? ==> !t.pc.event.RunStatus?)
  {
  }

  lemma DrainKeeps(c: Config, s: State)
    requires Inv(c, s) && Enabled(c, s, DrainCommit)
    ensures Inv(c, Step(c, s, DrainCommit)) && Extends(s.row, Step(c, s, DrainCommit).row)
  {
    CommitKeepsDense(s.row, s.drainer.begun.value);
  }

  lemma StartKeeps(c: Config, s: State, l: Label)
    requires Inv(c, s) && Enabled(c, s, l)
    requires l.Register? || l.MarkRunning? || l.Snapshot? || l.Begin? || l.WriteStatus?
    ensures Inv(c, Step(c, s, l)) && Extends(s.row, Step(c, s, l).row)
  {
  }

  lemma EnvironmentKeeps(c: Config, s: State, l: Label)
    requires Inv(c, s) && Enabled(c, s, l)
    requires l.Timeout? || l.Cancel? || l.DrainLine? || l.DrainBegin? || l.DrainEof?
    ensures Inv(c, Step(c, s, l)) && Extends(s.row, Step(c, s, l).row)
  {
  }

  lemma ExitKeeps(c: Config, s: State, l: Label)
    requires Inv(c, s) && Enabled(c, s, l) && (l.Eof? || l.Crash?)
    ensures Inv(c, Step(c, s, l)) && Extends(s.row, Step(c, s, l).row)
  {
    if l.Crash? {
      CrashKeeps(c, s);
    } else {
      HeardIsTerminal(c, s.consumed);
      LeaveKeeps(c, s, s.terminal);
    }
  }

  lemma StepKeeps(c: Config, s: State, l: Label)
    requires !c.lateCancels && Inv(c, s) && Enabled(c, s, l)
    ensures Inv(c, Step(c, s, l)) && Extends(s.row, Step(c, s, l).row)
  {
    if l.Register? || l.MarkRunning? || l.Snapshot? || l.Begin? || l.WriteStatus? {
      StartKeeps(c, s, l);
    } else if l.Timeout? || l.Cancel? || l.DrainLine? || l.DrainBegin? || l.DrainEof? {
      EnvironmentKeeps(c, s, l);
    } else if l.Eof? || l.Crash? {
      ExitKeeps(c, s, l);
    } else {
      TransactionKeeps(c, s, l);
    }
  }

  lemma TransactionKeeps(c: Config, s: State, l: Label)
    requires !c.lateCancels && Inv(c, s) && Enabled(c, s, l)
    requires !(l.Register? || l.MarkRunning? || l.Snapshot? || l.Begin? || l.WriteStatus?)
    requires !(l.Timeout? || l.Cancel? || l.DrainLine? || l.DrainBegin? || l.DrainEof? || l.Eof? || l.Crash?)
    ensures Inv(c, Step(c, s, l)) && Extends(s.row, Step(c, s, l).row)
  {
    assert l.Commit? || l.Consume? || l.DrainCommit?;
    if l.Commit? {
      CommitKeeps(c, s);
    } else if l.Consume? {
      ConsumeKeeps(c, s);
    } else {
      DrainKeeps(c, s);
    }
  }

  // ---- what holds over every run ------------------------------------------------------

  /** queued, then running, then one terminal status. */
  function Rank(s: Status): nat {
    match s
    case Queued => 0
    case Running => 1
    case _ => 2
  }

  /** From an earlier state to a later one: the log was only extended, and the status moved
      forward or stayed. */
  ghost predicate Advances(s: State, s': State) {
    && Extends(s.row, s'.row)
    && Rank(s.row.status) <= Rank(s'.row.status)
    && (IsTerminal(s.row.status) ==> s'.row.status == s.row.status)
    && (s.pc.Finished? ==> s'.row == s.row && s'.pc.Finished?)
  }

  lemma CommitAdvances(c: Config, s: State)
    requires Inv(c, s) && Enabled(c, s, Commit)
    ensures Advances(s, CommitStep(s))
  {
    CommitKeeps(c, s);
    CommitKeepsDense(s.row, s.begun.value);
    assert CommitStep(s).row.status == s.row.status;
  }

  lemma OtherKeepsLog(c: Config, s: State, l: Label)
    requires Enabled(c, s, l) && !l.Commit? && !l.DrainCommit? && s.late.NoLate?
    ensures Step(c, s, l).row.events == s.row.events && Step(c, s, l).row.lastSeq == s.row.lastSeq
  {
    if l.Consume? {
      HandleFrame(s.(consumed := s.consumed + 1), c.script[s.consumed]);
    } else if l.Eof? {
      LeaveFrame(s, s.terminal);
    } else if l.Crash? {
      LeaveFrame(s.(crashed := true), Some(Failed));
    } else if Aside(l) {
      AsideKeepsRow(c, s, l);
    } else {
      PlainFrame(c, s, l);
    }
  }

  lemma OtherKeepsStatus(c: Config, s: State, l: Label)
    requires Enabled(c, s, l) && !l.Commit? && !l.DrainCommit? && s.late.NoLate?
    ensures l.MarkRunning? || l.WriteStatus? || Step(c, s, l).row.status == s.row.status
  {
    if l.Consume? {
      HandleFrame(s.(consumed := s.consumed + 1), c.script[s.consumed]);
    } else if l.Eof? {
      LeaveFrame(s, s.terminal);
    } else if l.Crash? {
      LeaveFrame(s.(crashed := true), Some(Failed));
    } else if Aside(l) {
      AsideKeepsRow(c, s, l);
    } else {
      PlainFrame(c, s, l);
    }
  }

  /** A finished supervisor takes no step of its own. */
  lemma OtherStaysFinished(c: Config, s: State, l: Label)
    requires !c.lateCancels && Enabled(c, s, l) && !l.Commit? && s.pc.Finished?
    ensures Step(c, s, l).pc.Finished?
  {
    assert Light(l) && !l.Timeout? && !l.Register? && !l.MarkRunning? && !l.Snapshot? && !l.WriteStatus?;
  }

  lemma StepAdvances(c: Config, s: State, l: Label)
    requires !c.lateCancels && Inv(c, s) && Enabled(c, s, l)
    ensures Advances(s, Step(c, s, l))
  {
    StepKeeps(c, s, l);
    if l.Commit? {
      CommitAdvances(c, s);
    } else if l.DrainCommit? {
      assert Step(c, s, l).row.status == s.row.status;
    } else {
      OtherKeepsLog(c, s, l);
      OtherKeepsStatus(c, s, l);
      if s.pc.Finished? { OtherStaysFinished(c, s, l); }
      if l.MarkRunning? { assert s.row.status == Queued; }
      if l.WriteStatus? { assert s.row.status == Running; }
    }
  }

  /** Every state reached from a state satisfying the invariant satisfies it, and is an
      advance on it. */
  lemma {:induction false} RunKeeps(c: Config, s: State, ls: seq<Label>)
    requires !c.lateCancels && Inv(c, s) && Valid(c, s, ls)
    ensures Inv(c, After(c, s, ls)) && Advances(s, After(c, s, ls))
    decreases ls
  {
    if ls != [] {
      StepKeeps(c, s, ls[0]);
      StepAdvances(c, s, ls[0]);
      RunKeeps(c, Step(c, s, ls[0]), ls[1..]);
    }
  }

  /** A supervised run, at every moment of every interleaving: its log is dense, the
      supervisor never dies unheard, the status is one of the lifecycle's; and once it has
      finished, its log holds exactly one terminal event, the last one, which carries the
      stored status. */
  lemma SupervisedRun(c: Config, ls: seq<Label>)
    requires Articulate(c) && !c.lateCancels && Valid(c, Init(), ls)
    ensures var s := After(c, Init(), ls);
            && Dense(s.row) && !s.pc.Stuck?
            && (forall k :: k in s.row.events && IsTerminalEvent(s.row.events[k]) <==> s.pc.Finished? && k == s.row.lastSeq)
            && (s.pc.Finished? ==>
                  IsTerminal(s.row.status) && s.row.events[s.row.lastSeq] == RunStatus(s.row.status))
  {
    InitInv(c);
    RunKeeps(c, Init(), ls);
  }

  /** Some run of the system leads from s to t. */
  ghost predicate Reaches(c: Config, s: State, t: State) {
    exists ls :: Valid(c, s, ls) && After(c, s, ls) == t
  }

  lemma {:induction false} Concat(c: Config, s: State, ls: seq<Label>, ms: seq<Label>)
    requires Valid(c, s, ls) && Valid(c, After(c, s, ls), ms)
    ensures Valid(c, s, ls + ms) && After(c, s, ls + ms) == After(c, After(c, s, ls), ms)
    decreases ls
  {
    if ls == [] {
      assert ls + ms == ms;
    } else {
      assert (ls + ms)[1..] == ls[1..] + ms;
      Concat(c, Step(c, s, ls[0]), ls[1..], ms);
    }
  }

  lemma Here(c: Config, s: State)
    ensures Reaches(c, s, s)
  {
    assert Valid(c, s, []) && After(c, s, []) == s;
  }

  lemma Then(c: Config, s: State, t: State, l: Label)
    requires Reaches(c, s, t) && Enabled(c, t, l)
    ensures Reaches(c, s, Step(c, t, l))
  {
    var ls :| Valid(c, s, ls) && After(c, s, ls) == t;
    assert [l][1..] == [];
    assert Valid(c, Step(c, t, l), []) && Valid(c, t, [l]);
    Concat(c, s, ls, [l]);
  }

  lemma ReachesKeeps(c: Config, s: State, t: State)
    requires !c.lateCancels && Inv(c, s) && Reaches(c, s, t)
    ensures Inv(c, t) && Advances(s, t)
  {
    var ls :| Valid(c, s, ls) && After(c, s, ls) == t;
    RunKeeps(c, s, ls);
  }

  /** Once the stored status is terminal, no run of the system changes it. */
  ghost predicate StatusIsAbsorbing(c: Config) {
    forall s, t :: Reaches(c, Init(), s) && Reaches(c, s, t) && IsTerminal(s.row.status) ==> t.row.status == s.row.status
  }

  /** In every reachable log, nothing follows a terminal event. */
  ghost predicate AnnouncementIsLast(c: Config) {
    forall s :: Reaches(c, Init(), s) ==> NothingAfterAnnouncement(s.row)
  }

  ghost predicate NothingAfterAnnouncement(row: Row) {
    forall k :: k in row.events && IsTerminalEvent(row.events[k]) ==> k == row.lastSeq
  }

  /** Both lifecycle promises hold exactly when no cancel arrives while the run has no
      registered process. */
  lemma LifecycleIff(c: Config)
    requires Articulate(c)
    ensures StatusIsAbsorbing(c) <==> !c.lateCancels
    ensures AnnouncementIsLast(c) <==> !c.lateCancels
  {
    if c.lateCancels {
      LateCancelRevives(c);
      LateCancelAnnouncesEarly(c);
    } else {
      InitInv(c);
      forall s | Reaches(c, Init(), s) ensures Inv(c, s) {
        ReachesKeeps(c, Init(), s);
      }
      forall s, t | Reaches(c, Init(), s) && Reaches(c, s, t) ensures Advances(s, t) {
        ReachesKeeps(c, s, t);
      }
    }
  }

  /** A cancel that reaches a queued run is finalized on the spot; start_run then marks the
      cancelled run as running. */
  lemma LateCancelRevives(c: Config)
    requires c.lateCancels
    ensures !StatusIsAbsorbing(c)
  {
    var s1 := Step(c, Init(), LateCancel);
    var s2 := Step(c, s1, LateWrite);
    var s3 := Step(c, s2, Register);
    var s4 := Step(c, s3, MarkRunning);
    Here(c, Init());
    Then(c, Init(), Init(), LateCancel);
    Then(c, Init(), s1, LateWrite);
    Here(c, s2);
    Then(c, s2, s2, Register);
    Then(c, s2, s3, MarkRunning);
    assert s2.row.status == Cancelled && s4.row.status == Running;
  }

  /** The same cancel announces the end of the run before start_run announces its start. */
  lemma LateCancelAnnouncesEarly(c: Config)
    requires c.lateCancels
    ensures !AnnouncementIsLast(c)
  {
    var row1 := Row(Cancelled, 1, map[1 := RunStatus(Cancelled)]);
    var announced := State(row1, Created, None, Asleep, false, true, None, 0, LateDone, false, false, false);
    AnnouncedEarly(c, announced);
    var s1 := Step(c, announced, Register);
    var s2 := Step(c, s1, MarkRunning);
    var s3 := Step(c, s2, Snapshot);
    var s4 := Step(c, s3, Begin);
    var s5 := Step(c, s4, Commit);
    Then(c, Init(), announced, Register);
    Then(c, Init(), s1, MarkRunning);
    Then(c, Init(), s2, Snapshot);
    Then(c, Init(), s3, Begin);
    Then(c, Init(), s4, Commit);
    assert s5.row == Row(Running, 2, map[1 := RunStatus(Cancelled), 2 := RunStatus(Running)]);
    assert 1 in s5.row.events && IsTerminalEvent(s5.row.events[1]);
  }

  lemma AnnouncedEarly(c: Config, announced: State)
    requires c.lateCancels
    requires announced == State(Row(Cancelled, 1, map[1 := RunStatus(Cancelled)]), Created, None, Asleep, false, true,
                                None, 0, LateDone, false, false, false)
    ensures Reaches(c, Init(), announced)
  {
    var taken := State(Row(Cancelled, 0, map[]), Created, None, Asleep, false, true,
                       None, 0, LateAnnouncing(RunStatus(Cancelled), None), false, false, false);
    LateCancelTaken(c, taken);
    var begun := Step(c, taken, LateBegin);
    Then(c, Init(), taken, LateBegin);
    Then(c, Init(), begun, LateCommit);
  }

  lemma LateCancelTaken(c: Config, taken: State)
    requires c.lateCancels
    requires taken == State(Row(Cancelled, 0, map[]), Created, None, Asleep, false, true,
                            None, 0, LateAnnouncing(RunStatus(Cancelled), None), false, false, false)
    ensures Reaches(c, Init(), taken)
  {
    var s1 := Step(c, Init(), LateCancel);
    var s2 := Step(c, s1, LateWrite);
    Here(c, Init());
    Then(c, Init(), Init(), LateCancel);
    Then(c, Init(), s1, LateWrite);
    Then(c, Init(), s2, LateSnapshot);
  }

  // ---- the outcome as a function of what happened ------------------------------------

  /** Somewhere along the run, an append of the supervisor itself lost the race for its
      sequence number against the stderr drainer. */
  predicate Collided(c: Config, s: State, ls: seq<Label>)
    requires Valid(c, s, ls)
    decreases ls
  {
    ls != [] &&
    ((ls[0].Commit? && Refused(s.row, s.begun.value)) || Collided(c, Step(c, s, ls[0]), ls[1..]))
  }

  predicate CancelSeen(s: State) {
    s.cancelRequested || (Decided(s.pc) && s.cancelAtExit)
  }

  lemma StepHistory(c: Config, s: State, l: Label)
    requires !c.lateCancels && Inv(c, s) && Enabled(c, s, l)
    ensures Step(c, s, l).timedOut <==> s.timedOut || l.Timeout?
    ensures Step(c, s, l).crashed <==> s.crashed || l.Crash? || (l.Commit? && Refused(s.row, s.begun.value))
    ensures CancelSeen(Step(c, s, l)) <==> CancelSeen(s) || l.Cancel?
  {
    if l.Commit? {
      CommitHistory(c, s);
    } else if l.Eof? || l.Crash? {
      ExitHistory(c, s, l);
    } else {
      QuietHistory(c, s, l);
    }
  }

  lemma ExitHistory(c: Config, s: State, l: Label)
    requires Inv(c, s) && Enabled(c, s, l) && (l.Eof? || l.Crash?)
    ensures Step(c, s, l).timedOut == s.timedOut && CancelSeen(Step(c, s, l)) == CancelSeen(s)
    ensures Step(c, s, l).crashed <==> s.crashed || l.Crash?
  {
  }

  lemma QuietHistory(c: Config, s: State, l: Label)
    requires !c.lateCancels && Inv(c, s) && Enabled(c, s, l)
    requires !l.Commit? && !l.Eof? && !l.Crash?
    ensures Step(c, s, l).timedOut <==> s.timedOut || l.Timeout?
    ensures Step(c, s, l).crashed == s.crashed
    ensures CancelSeen(Step(c, s, l)) <==> CancelSeen(s) || l.Cancel?
  {
    if l.Consume? {
      HandleFrame(s.(consumed := s.consumed + 1), c.script[s.consumed]);
    } else if Aside(l) {
      AsideFrame(c, s, l);
    } else {
      PlainFlags(c, s, l);
      PlainDecides(c, s, l);
    }
  }

  lemma PlainDecides(c: Config, s: State, l: Label)
    requires Enabled(c, s, l) && Light(l) && !Aside(l)
    ensures Decided(Step(c, s, l).pc) <==> Decided(s.pc)
  {
  }

  lemma CommitHistory(c: Config, s: State)
    requires !c.lateCancels && Inv(c, s) && Enabled(c, s, Commit)
    ensures CommitStep(s).timedOut == s.timedOut && CancelSeen(CommitStep(s)) == CancelSeen(s)
    ensures CommitStep(s).crashed <==> s.crashed || Refused(s.row, s.begun.value)
  {
    CommitKeepsDense(s.row, s.begun.value);
  }

  lemma {:induction false} History(c: Config, s: State, ls: seq<Label>)
    requires !c.lateCancels && Inv(c, s) && Valid(c, s, ls)
    ensures After(c, s, ls).timedOut <==> s.timedOut || Timeout in ls
    ensures After(c, s, ls).crashed <==> s.crashed || Crash in ls || Collided(c, s, ls)
    ensures CancelSeen(After(c, s, ls)) <==> CancelSeen(s) || Cancel in ls
    decreases ls
  {
    if ls != [] {
      StepKeeps(c, s, ls[0]);
      StepHistory(c, s, ls[0]);
      History(c, Step(c, s, ls[0]), ls[1..]);
      assert ls == [ls[0]] + ls[1..];
    }
  }

  /** The status a finished run ends with, from what happened to it: the last word read, and
      whether the timeout fired, the supervisor crashed or collided, a cancel was registered. */
  lemma StoredOutcome(c: Config, ls: seq<Label>)
    requires Articulate(c) && !c.lateCancels && Valid(c, Init(), ls) && After(c, Init(), ls).pc.Finished?
    ensures var s := After(c, Init(), ls);
            && s.consumed <= |c.script|
            && s.row.status == StoredStatus(Heard(c.script[..s.consumed]), Timeout in ls,
                                            Crash in ls || Collided(c, Init(), ls), Cancel in ls)
  {
    InitInv(c);
    RunKeeps(c, Init(), ls);
    History(c, Init(), ls);
  }

  /** "completed" is stored only if every enabled category was iterated, and nothing else
      happened to the run. */
  lemma CompletedIsEarned(job: Worker.Job, ls: seq<Label>)
    requires var c := For(job, false); Valid(c, Init(), ls) && After(c, Init(), ls).row.status == Completed
    ensures Worker.GoesThrough(job) && Worker.Iterated(Worker.Transcript(job)) == Worker.Names(job.categories)
    ensures Timeout !in ls && Crash !in ls && Cancel !in ls && !Collided(For(job, false), Init(), ls)
  {
    var c := For(job, false);
    WorkersAreArticulate(job, false);
    CompletedWasHeard(c, ls);
    HeardFromWorker(job, After(c, Init(), ls).consumed);
    Worker.CompletedMeansAllIterated(job);
  }

  lemma CompletedWasHeard(c: Config, ls: seq<Label>)
    requires Articulate(c) && !c.lateCancels && Valid(c, Init(), ls) && After(c, Init(), ls).row.status == Completed
    ensures var n := After(c, Init(), ls).consumed;
            n <= |c.script| && Heard(c.script[..n]) == Some(Completed)
    ensures Timeout !in ls && Crash !in ls && !Collided(c, Init(), ls) && Cancel !in ls
  {
    InitInv(c);
    RunKeeps(c, Init(), ls);
    History(c, Init(), ls);
  }

  /** A healthy worker's run can still be stored as failed: when the stderr drainer commits
      between the read and the commit of one of the supervisor's appends, the refused append
      is taken for a supervisor crash. No timeout, crash or cancel is involved. */
  lemma CollisionFailsHealthyRun(job: Worker.Job)
    requires Worker.GoesThrough(job)
    ensures var c := For(job, false);
            exists ls :: Valid(c, Init(), ls) && Timeout !in ls && Crash !in ls && Cancel !in ls
                         && After(c, Init(), ls).row.status == Failed
  {
    var c := For(job, false);
    Worker.FirstLineIsLog(job);
    var ls, s := StartUp(c);
    ls, s := Race(c, ls, s);
    ls, s := Collide(c, ls, s);
    CollisionEnds(c, ls, s);
  }

  /** The supervisor has read its row for the first line's append. */
  lemma Race(c: Config, ls0: seq<Label>, s0: State) returns (ls: seq<Label>, s: State)
    requires Valid(c, Init(), ls0) && After(c, Init(), ls0) == s0
    requires Timeout !in ls0 && Crash !in ls0 && Cancel !in ls0
    requires s0.pc.Consuming? && s0.drainer.Reading? && s0.begun.None? && s0.consumed == 0
    requires |c.script| > 0 && c.script[0].WLog?
    ensures Valid(c, Init(), ls) && After(c, Init(), ls) == s && s.row == s0.row
    ensures Timeout !in ls && Crash !in ls && Cancel !in ls
    ensures s.pc.Emitting? && s.begun == Some(BeginAppend(s.row, s.pc.event)) && s.drainer.Reading?
  {
    ls, s := ls0, s0;
    Extend(c, ls, s, Consume);
    ls, s := ls + [Consume], Step(c, s, Consume);
    Extend(c, ls, s, Begin);
    ls, s := ls + [Begin], Step(c, s, Begin);
  }

  /** The drainer reads its row in between. */
  lemma Interleave(c: Config, ls0: seq<Label>, s0: State) returns (ls: seq<Label>, s: State)
    requires Valid(c, Init(), ls0) && After(c, Init(), ls0) == s0 && s0.drainer.Reading?
    requires Timeout !in ls0 && Crash !in ls0 && Cancel !in ls0
    ensures Valid(c, Init(), ls) && After(c, Init(), ls) == s
    ensures Timeout !in ls && Crash !in ls && Cancel !in ls
    ensures s.row == s0.row && s.pc == s0.pc && s.begun == s0.begun
    ensures s.drainer.Draining? && s.drainer.begun == Some(BeginAppend(s.row, s.drainer.event))
  {
    ls, s := ls0, s0;
    var line := DrainLine("x");
    Extend(c, ls, s, line);
    ls, s := ls + [line], Step(c, s, line);
    Extend(c, ls, s, DrainBegin);
    ls, s := ls + [DrainBegin], Step(c, s, DrainBegin);
  }

  /** And commits first. */
  lemma Collide(c: Config, ls0: seq<Label>, s0: State) returns (ls: seq<Label>, s: State)
    requires Valid(c, Init(), ls0) && After(c, Init(), ls0) == s0 && Dense(s0.row)
    requires Timeout !in ls0 && Crash !in ls0 && Cancel !in ls0
    requires s0.pc.Emitting? && s0.begun == Some(BeginAppend(s0.row, s0.pc.event)) && s0.drainer.Reading?
    ensures Valid(c, Init(), ls) && After(c, Init(), ls) == s
    ensures Timeout !in ls && Crash !in ls && Cancel !in ls
    ensures s.pc.Emitting? && s.begun.Some? && Refused(s.row, s.begun.value)
  {
    ls, s := Interleave(c, ls0, s0);
    Extend(c, ls, s, DrainCommit);
    ls, s := ls + [DrainCommit], Step(c, s, DrainCommit);
  }

  lemma CollisionEnds(c: Config, ls: seq<Label>, s: State)
    requires Valid(c, Init(), ls) && After(c, Init(), ls) == s
    requires Timeout !in ls && Crash !in ls && Cancel !in ls
    requires s.pc.Emitting? && s.begun.Some? && Refused(s.row, s.begun.value)
    ensures exists ms :: Valid(c, Init(), ms) && Timeout !in ms && Crash !in ms && Cancel !in ms
                         && After(c, Init(), ms).row.status == Failed
  {
    Extend(c, ls, s, Commit);
    Extend(c, ls + [Commit], Step(c, s, Commit), WriteStatus);
    var ms := ls + [Commit] + [WriteStatus];
    assert After(c, Init(), ms).row.status == Failed;
  }

  lemma Extend(c: Config, ls: seq<Label>, s: State, l: Label)
    requires Valid(c, Init(), ls) && After(c, Init(), ls) == s && Enabled(c, s, l)
    ensures Valid(c, Init(), ls + [l]) && After(c, Init(), ls + [l]) == Step(c, s, l)
  {
    assert [l][1..] == [];
    assert Valid(c, Step(c, s, l), []) && Valid(c, s, [l]);
    Concat(c, Init(), ls, [l]);
  }

  lemma StartUp(c: Config) returns (ls: seq<Label>, s: State)
    ensures Valid(c, Init(), ls) && After(c, Init(), ls) == s
    ensures Timeout !in ls && Crash !in ls && Cancel !in ls
    ensures s.pc.Consuming? && s.drainer.Reading? && s.begun.None? && s.consumed == 0
    ensures s.row.lastSeq == 1 && s.row.events == map[1 := RunStatus(Running)]
  {
    ls, s := [], Init();
    assert Valid(c, Init(), ls) && After(c, Init(), ls) == s;
    Extend(c, ls, s, Register);
    ls, s := ls + [Register], Step(c, s, Register);
    Extend(c, ls, s, MarkRunning);
    ls, s := ls + [MarkRunning], Step(c, s, MarkRunning);
    Extend(c, ls, s, Snapshot);
    ls, s := ls + [Snapshot], Step(c, s, Snapshot);
    Extend(c, ls, s, Begin);
    ls, s := ls + [Begin], Step(c, s, Begin);
    Extend(c, ls, s, Commit);
    ls, s := ls + [Commit], Step(c, s, Commit);
  }

  // ---- a supervised run can always be finished ----------------------------------------

  /** The supervisor task's next segment when nothing else happens and the worker is done. */
  function NextLabel(s: State): Label {
    if Appending(s.pc) then (if s.begun.None? then Begin else Commit)
    else match s.pc
      case Created => Register
      case Registered => MarkRunning
      case MarkedRunning => Snapshot
      case Consuming => Eof
      case Finalizing => WriteStatus
      case _ => Snapshot
  }

  function Distance(s: State): nat {
    (match s.pc
     case Created => 19
     case Registered => 18
     case MarkedRunning => 17
     case Starting(_) => 15
     case Emitting(_) => 13
     case Consuming => 12
     case TimeoutLogging(_) => 10
     case ExitLogging(_) => 8
     case Finalizing => 6
     case StatusWritten => 5
     case Announcing(_) => 3
     case Finished => 0
     case Stuck => 0)
    + if Appending(s.pc) && s.begun.None? then 1 else 0
  }

  lemma NextIsCloser(c: Config, s: State)
    requires Inv(c, s) && !s.pc.Finished?
    ensures Enabled(c, s, NextLabel(s)) && Distance(Step(c, s, NextLabel(s))) < Distance(s)
  {
    if NextLabel(s).Commit? { CommitKeepsDense(s.row, s.begun.value); }
  }

  /** From every reachable state the supervisor can bring the run to its announced end. */
  lemma {:induction false} CanFinish(c: Config, s: State) returns (t: State)
    requires !c.lateCancels && Inv(c, s)
    ensures Reaches(c, s, t) && t.pc.Finished? && Inv(c, t)
    decreases Distance(s)
  {
    if s.pc.Finished? {
      t := s;
      Here(c, s);
    } else {
      var next := Step(c, s, NextLabel(s));
      NextIsCloser(c, s);
      StepKeeps(c, s, NextLabel(s));
      t := CanFinish(c, next);
      Here(c, s);
      Then(c, s, s, NextLabel(s));
      Transitive(c, s, next, t);
    }
  }

  lemma Transitive(c: Config, s: State, t: State, u: State)
    requires Reaches(c, s, t) && Reaches(c, t, u)
    ensures Reaches(c, s, u)
  {
    var ls :| Valid(c, s, ls) && After(c, s, ls) == t;
    var ms :| Valid(c, t, ms) && After(c, t, ms) == u;
    Concat(c, s, ls, ms);
  }
}
