/** The worker process: `main` and `RunExecutor.run`, as the sequence of JSON lines they
    write for every way the engine underneath can behave. */
module Worker {
  import opened Options
  import opened RunEvents
  import opened Sequences

  /** What the engine writes while its code runs: a print or log line, or a result. */
  datatype Output = Line(message: string) | Result(name: string)

  /** What one category's engine code does once it is called; `output` is what it writes before
      it returns or raises. */
  datatype Outcome =
    | Returned(output: seq<Output>)
    | Raised(output: seq<Output>)          // an Exception: reported as one ERROR result
    | ReportRaised(output: seq<Output>)    // an Exception, and building its ERROR result raised too
    | CancelRaised(output: seq<Output>)    // RunCancelled
    | ProcessExit(output: seq<Output>)     // SystemExit and the like: not an Exception

  /** One enabled category: whether the cancel file exists when the loop reaches it, whether a
      test selection is stored for it and whether that is malformed, and how its engine code
      behaves. */
  datatype Category = Category(name: string, cancelFile: bool, restricted: bool, badSelection: bool, outcome: Outcome)

  /** The lines that prints, the network guard and the diagnostics add before the loop. */
  datatype Chatter = Chatter(loading: seq<string>, setup: seq<string>, checking: seq<string>, planning: seq<string>)

  /** Everything outside the worker's control that decides what it writes. */
  datatype Job = Job(
    importsOk: bool,         // `from .executor import ...` is outside every try block
    constructorOk: bool,     // RunExecutor(...) read a usable manifest
    setupOk: bool,           // issuer present, configuration usable, network guard installed
    blocked: bool,           // a target violates the network policy
    certificatesOk: bool,    // every certificate file loads
    selection: bool,         // a fine-grained test selection is stored
    planOk: bool,            // the engine configuration can be built
    chatter: Chatter,
    categories: seq<Category>)

  /** How `RunExecutor.run` is left. */
  datatype Exit = Normal | Cancel | Error | Gone

  function Percent(done: nat, total: nat): nat {
    if total == 0 then 100 else done * 100 / total
  }

  function OutputEvents(output: seq<Output>): seq<WorkerEvent> {
    if output == [] then []
    else [if output[0].Line? then WLog(output[0].message) else WResult(output[0].name)] + OutputEvents(output[1..])
  }

  function Logs(messages: seq<string>): seq<WorkerEvent> {
    if messages == [] then [] else [WLog(messages[0])] + Logs(messages[1..])
  }

  /** The iteration of one category goes through: its engine code returned, or raised an
      Exception that was turned into a result. */
  predicate Iterates(c: Category) {
    !c.cancelFile && !c.badSelection && (c.outcome.Returned? || c.outcome.Raised?)
  }

  /** Why the loop stops at a category that does not go through. */
  function StopReason(c: Category): Exit
    requires !Iterates(c)
  {
    if c.cancelFile then Cancel
    else if c.badSelection then Error
    else if c.outcome.ReportRaised? then Error
    else if c.outcome.CancelRaised? then Cancel
    else Gone
  }

  /** The lines written once the engine code of a category has returned or raised. */
  function AfterResults(c: Category, done: nat, total: nat): seq<WorkerEvent> {
    match c.outcome
    case Returned(_) => [WFinished(c.name, Percent(done + 1, total))]
    case Raised(_) =>
      [WLog("crashed"), WLog("traceback"), WResult("Run " + c.name), WFinished(c.name, Percent(done + 1, total))]
    case ReportRaised(_) => [WLog("crashed"), WLog("traceback")]
    case CancelRaised(_) => []
    case ProcessExit(_) => []
  }

  /** The lines written before the engine code of a category is called. */
  function CategoryHead(c: Category, done: nat, total: nat): seq<WorkerEvent> {
    [WStarted(c.name, Percent(done, total)), WLog(c.name)]
    + if c.restricted && !c.badSelection then [WLog("restricted")] else []
  }

  /** The lines written while one category is handled. */
  function CategoryEvents(c: Category, done: nat, total: nat): seq<WorkerEvent> {
    if c.cancelFile then []
    else if c.badSelection then CategoryHead(c, done, total)
    else CategoryHead(c, done, total) + OutputEvents(c.outcome.output) + AfterResults(c, done, total)
  }

  /** The lines of the category loop from index `done` on. */
  function LoopEvents(cats: seq<Category>, done: nat): seq<WorkerEvent>
    requires done <= |cats|
    decreases |cats| - done
  {
    if done == |cats| then []
    else if Iterates(cats[done]) then CategoryEvents(cats[done], done, |cats|) + LoopEvents(cats, done + 1)
    else CategoryEvents(cats[done], done, |cats|)
  }

  function LoopExit(cats: seq<Category>, done: nat): Exit
    requires done <= |cats|
    decreases |cats| - done
  {
    if done == |cats| then Normal
    else if Iterates(cats[done]) then LoopExit(cats, done + 1)
    else StopReason(cats[done])
  }

  /** What `run` writes after a loop that was not left early. */
  function Farewell(exit: Exit): seq<WorkerEvent> {
    if exit.Normal? then [WDone(Some(Completed)), WLog("Run complete")] else []
  }

  /** From the start of `run` to the end of the pre-flight checks. */
  function Opening(job: Job): seq<WorkerEvent> {
    Logs(job.chatter.setup) + [WLog("starting")] + Logs(job.chatter.checking)
  }

  /** From the list of enabled categories to the loop. */
  function Planning(job: Job): seq<WorkerEvent> {
    [WLog("enabled")] + (if job.selection then [WLog("selection")] else []) + Logs(job.chatter.planning)
  }

  /** From the list of enabled categories to the last line of `run`. */
  function SelectedOutput(job: Job): (seq<WorkerEvent>, Exit) {
    if !job.planOk then (Planning(job), Error)
    else
      var exit := LoopExit(job.categories, 0);
      (Planning(job) + LoopEvents(job.categories, 0) + Farewell(exit), exit)
  }

  /** A refusal by the network policy ends the run normally. */
  function Refusal(): seq<WorkerEvent> {
    [WLog("[NETGUARD]"), WResult("Outbound target policy check"), WDone(Some(Failed))]
  }

  /** What `RunExecutor.run` writes, and how it is left. */
  function RunOutput(job: Job): (seq<WorkerEvent>, Exit) {
    if !job.setupOk then (Logs(job.chatter.setup), Error)
    else if job.blocked then (Opening(job) + Refusal(), Normal)
    else if !job.certificatesOk then (Opening(job), Error)
    else (Opening(job) + SelectedOutput(job).0, SelectedOutput(job).1)
  }

  /** What `main` adds, depending on how `run` was left. */
  function Ending(exit: Exit): seq<WorkerEvent> {
    match exit
    case Normal => []
    case Gone => []
    case Cancel => [WDone(Some(Cancelled))]
    case Error => [WLog("traceback"), WFatal("error")]
  }

  /** Everything an un-killed worker process writes. */
  function Transcript(job: Job): seq<WorkerEvent> {
    if !job.importsOk then Logs(job.chatter.loading)
    else if !job.constructorOk then Logs(job.chatter.loading) + [WFatal("Failed to initialize run")]
    else Logs(job.chatter.loading) + (RunOutput(job).0 + Ending(RunOutput(job).1))
  }

  /** The executor object: `emit` appends to the channel, `run` drives the category loop. */
  class RunExecutor {
    var channel: seq<WorkerEvent>

    constructor ()
      ensures channel == []
    {
      channel := [];
    }

    method Emit(e: WorkerEvent)
      modifies this
      ensures channel == old(channel) + [e]
    {
      channel := channel + [e];
    }

    method EmitLogs(messages: seq<string>)
      modifies this
      ensures channel == old(channel) + Logs(messages)
    {
      var i := 0;
      while i < |messages|
        invariant 0 <= i <= |messages|
        invariant channel + Logs(messages[i..]) == old(channel) + Logs(messages)
      {
        assert messages[i..][1..] == messages[i + 1..];
        Assoc(channel, [WLog(messages[i])], Logs(messages[i + 1..]));
        Emit(WLog(messages[i]));
        i := i + 1;
      }
    }

    /** The engine's own lines, as the interceptor and the result callback pass them on. */
    method EmitOutput(output: seq<Output>)
      modifies this
      ensures channel == old(channel) + OutputEvents(output)
    {
      var i := 0;
      while i < |output|
        invariant 0 <= i <= |output|
        invariant channel + OutputEvents(output[i..]) == old(channel) + OutputEvents(output)
      {
        assert output[i..][1..] == output[i + 1..];
        var e := if output[i].Line? then WLog(output[i].message) else WResult(output[i].name);
        Assoc(channel, [e], OutputEvents(output[i + 1..]));
        Emit(e);
        i := i + 1;
      }
    }

    /** One pass of the loop body; a non-Normal exit is the exception that leaves the loop. */
    method RunCategory(c: Category, done: nat, total: nat) returns (exit: Exit)
      modifies this
      ensures channel == old(channel) + CategoryEvents(c, done, total)
      ensures exit == if Iterates(c) then Normal else StopReason(c)
    {
      if c.cancelFile {
        return Cancel;
      }
      Emit(WStarted(c.name, Percent(done, total)));
      Emit(WLog(c.name));
      if c.badSelection {
        return Error;
      }
      if c.restricted {
        Emit(WLog("restricted"));
      }
      ghost var head := CategoryHead(c, done, total);
      assert channel == old(channel) + head;
      EmitOutput(c.outcome.output);
      exit := FinishCategory(c, done, total);
      Assoc(old(channel), head, OutputEvents(c.outcome.output));
      Assoc(old(channel), head + OutputEvents(c.outcome.output), AfterResults(c, done, total));
    }

    /** What follows the engine call: the except clauses and the end of the loop body. */
    method FinishCategory(c: Category, done: nat, total: nat) returns (exit: Exit)
      requires !c.cancelFile && !c.badSelection
      modifies this
      ensures channel == old(channel) + AfterResults(c, done, total)
      ensures exit == if Iterates(c) then Normal else StopReason(c)
    {
      match c.outcome {
        case Returned(_) =>
        case Raised(_) =>
          Emit(WLog("crashed"));
          Emit(WLog("traceback"));
          Emit(WResult("Run " + c.name));
        case ReportRaised(_) =>
          Emit(WLog("crashed"));
          Emit(WLog("traceback"));
          return Error;
        case CancelRaised(_) =>
          return Cancel;
        case ProcessExit(_) =>
          return Gone;
      }
      Emit(WFinished(c.name, Percent(done + 1, total)));
      exit := Normal;
    }

    method Run(job: Job) returns (exit: Exit)
      modifies this
      ensures channel == old(channel) + RunOutput(job).0
      ensures exit == RunOutput(job).1
    {
      EmitLogs(job.chatter.setup);
      if !job.setupOk {
        return Error;
      }
      ghost var setup := channel;
      Emit(WLog("starting"));
      EmitLogs(job.chatter.checking);
      Opened(old(channel), setup, channel, job);
      ghost var opening := channel;
      if job.blocked {
        Emit(WLog("[NETGUARD]"));
        Emit(WResult("Outbound target policy check"));
        Emit(WDone(Some(Failed)));
        assert channel == opening + Refusal();
        Assoc(old(channel), Opening(job), Refusal());
        return Normal;
      }
      if !job.certificatesOk {
        return Error;
      }
      exit := RunSelected(job);
      Assoc(old(channel), Opening(job), SelectedOutput(job).0);
    }

    method RunSelected(job: Job) returns (exit: Exit)
      modifies this
      ensures channel == old(channel) + SelectedOutput(job).0
      ensures exit == SelectedOutput(job).1
    {
      Emit(WLog("enabled"));
      if job.selection {
        Emit(WLog("selection"));
      }
      ghost var listed := channel;
      EmitLogs(job.chatter.planning);
      Planned(old(channel), listed, channel, job);
      if !job.planOk {
        return Error;
      }
      exit := RunCategories(job.categories);
      ghost var looped := channel;
      if exit.Normal? {
        Emit(WDone(Some(Completed)));
        Emit(WLog("Run complete"));
      }
      assert channel == looped + Farewell(exit);
      Assoc(old(channel), Planning(job), LoopEvents(job.categories, 0));
      Assoc(old(channel), Planning(job) + LoopEvents(job.categories, 0), Farewell(exit));
    }

    method RunCategories(cats: seq<Category>) returns (exit: Exit)
      modifies this
      ensures channel == old(channel) + LoopEvents(cats, 0)
      ensures exit == LoopExit(cats, 0)
    {
      var done := 0;
      while done < |cats|
        invariant 0 <= done <= |cats|
        invariant channel + LoopEvents(cats, done) == old(channel) + LoopEvents(cats, 0)
        invariant LoopExit(cats, done) == LoopExit(cats, 0)
      {
        ghost var before := channel;
        exit := RunCategory(cats[done], done, |cats|);
        if !exit.Normal? {
          return;
        }
        Assoc(before, CategoryEvents(cats[done], done, |cats|), LoopEvents(cats, done + 1));
        done := done + 1;
      }
      exit := Normal;
    }
  }

  lemma Opened(before: seq<WorkerEvent>, setup: seq<WorkerEvent>, after: seq<WorkerEvent>, job: Job)
    requires setup == before + Logs(job.chatter.setup)
    requires after == setup + [WLog("starting")] + Logs(job.chatter.checking)
    ensures after == before + Opening(job)
  {
    Assoc(before, Logs(job.chatter.setup), [WLog("starting")]);
    Assoc(before, Logs(job.chatter.setup) + [WLog("starting")], Logs(job.chatter.checking));
  }

  lemma Planned(before: seq<WorkerEvent>, listed: seq<WorkerEvent>, after: seq<WorkerEvent>, job: Job)
    requires listed == before + [WLog("enabled")] + if job.selection then [WLog("selection")] else []
    requires after == listed + Logs(job.chatter.planning)
    ensures after == before + Planning(job)
  {
    var selection: seq<WorkerEvent> := if job.selection then [WLog("selection")] else [];
    Assoc(before, [WLog("enabled")], selection);
    Assoc(before, [WLog("enabled")] + selection, Logs(job.chatter.planning));
  }

  method WorkerMain(job: Job) returns (channel: seq<WorkerEvent>)
    ensures channel == Transcript(job)
  {
    var executor := new RunExecutor();
    executor.EmitLogs(job.chatter.loading);
    ghost var loaded := executor.channel;
    assert loaded == Logs(job.chatter.loading);
    if !job.importsOk {
      return executor.channel;
    }
    if !job.constructorOk {
      executor.Emit(WFatal("Failed to initialize run"));
      return executor.channel;
    }
    var exit := executor.Run(job);
    ghost var ran := executor.channel;
    match exit {
      case Normal =>
      case Gone =>
      case Cancel =>
        executor.Emit(WDone(Some(Cancelled)));
      case Error =>
        executor.Emit(WLog("traceback"));
        executor.Emit(WFatal("error"));
    }
    channel := executor.channel;
    assert channel == ran + Ending(exit);
    Assoc(loaded, RunOutput(job).0, Ending(exit));
  }

  // ---- what a transcript can look like ------------------------------------------------

  /** The done and fatal lines of a sequence of worker lines, in order. */
  function LastWords(events: seq<WorkerEvent>): seq<WorkerEvent> {
    if events == [] then []
    else if IsLastWord(events[0]) then [events[0]] + LastWords(events[1..])
    else LastWords(events[1..])
  }

  /** The categories a sequence of worker lines reports as finished, in order. */
  function Iterated(events: seq<WorkerEvent>): seq<string> {
    if events == [] then []
    else if events[0].WFinished? then [events[0].category] + Iterated(events[1..])
    else Iterated(events[1..])
  }

  function Names(cats: seq<Category>): seq<string> {
    if cats == [] then [] else [cats[0].name] + Names(cats[1..])
  }

  lemma {:induction false} LastWordsConcat(a: seq<WorkerEvent>, b: seq<WorkerEvent>)
    ensures LastWords(a + b) == LastWords(a) + LastWords(b)
  {
    if a == [] {
      assert a + b == b;
    } else {
      LastWordsConcat(a[1..], b);
      TailConcat(a, b);
      Assoc([a[0]], LastWords(a[1..]), LastWords(b));
    }
  }

  lemma {:induction false} IteratedConcat(a: seq<WorkerEvent>, b: seq<WorkerEvent>)
    ensures Iterated(a + b) == Iterated(a) + Iterated(b)
  {
    if a == [] {
      assert a + b == b;
    } else {
      IteratedConcat(a[1..], b);
      TailConcat(a, b);
      if a[0].WFinished? {
        Assoc([a[0].category], Iterated(a[1..]), Iterated(b));
      }
    }
  }

  /** Lines that are neither a last word nor report a category as finished. */
  predicate Quiet(events: seq<WorkerEvent>) {
    forall e :: e in events ==> !IsLastWord(e) && !e.WFinished?
  }

  lemma {:induction false} QuietWords(events: seq<WorkerEvent>)
    requires Quiet(events)
    ensures LastWords(events) == [] && Iterated(events) == []
  {
    if events != [] {
      assert events[0] in events;
      QuietWords(events[1..]);
    }
  }

  /** A quiet beginning says nothing. */
  lemma QuietPrefix(quiet: seq<WorkerEvent>, rest: seq<WorkerEvent>)
    requires Quiet(quiet)
    ensures LastWords(quiet + rest) == LastWords(rest) && Iterated(quiet + rest) == Iterated(rest)
  {
    LastWordsConcat(quiet, rest);
    IteratedConcat(quiet, rest);
    QuietWords(quiet);
  }

  lemma {:induction false} OutputIsQuiet(output: seq<Output>)
    ensures Quiet(OutputEvents(output))
  {
    if output != [] {
      OutputIsQuiet(output[1..]);
    }
  }

  lemma {:induction false} LogsAreQuiet(messages: seq<string>)
    ensures Quiet(Logs(messages)) && forall e :: e in Logs(messages) ==> e.WLog?
  {
    if messages != [] {
      LogsAreQuiet(messages[1..]);
    }
  }

  lemma OpeningIsQuiet(job: Job)
    ensures Quiet(Opening(job)) && Quiet(Planning(job)) && Quiet(Logs(job.chatter.setup)) && Quiet(Logs(job.chatter.loading))
  {
    LogsAreQuiet(job.chatter.loading);
    LogsAreQuiet(job.chatter.setup);
    LogsAreQuiet(job.chatter.checking);
    LogsAreQuiet(job.chatter.planning);
  }

  /** The number of leading categories that go through. */
  function Passed(cats: seq<Category>): (n: nat)
    ensures n <= |cats|
    ensures forall i :: 0 <= i < n ==> Iterates(cats[i])
    ensures n < |cats| ==> !Iterates(cats[n])
  {
    if cats == [] || !Iterates(cats[0]) then 0 else 1 + Passed(cats[1..])
  }

  lemma CategoryWords(c: Category, done: nat, total: nat)
    ensures LastWords(CategoryEvents(c, done, total)) == []
    ensures Iterated(CategoryEvents(c, done, total)) == if Iterates(c) then [c.name] else []
  {
    var head := CategoryHead(c, done, total);
    assert Quiet(head);
    QuietWords(head);
    if !c.cancelFile && !c.badSelection {
      OutputIsQuiet(c.outcome.output);
      AfterResultsWords(c, done, total);
      QuietPrefix(head + OutputEvents(c.outcome.output), AfterResults(c, done, total));
    }
  }

  lemma PairWords(a: WorkerEvent, b: WorkerEvent)
    ensures LastWords([a, b]) == LastWords([a]) + LastWords([b])
    ensures Iterated([a, b]) == Iterated([a]) + Iterated([b])
  {
    assert [a, b] == [a] + [b];
    LastWordsConcat([a], [b]);
    IteratedConcat([a], [b]);
  }

  lemma AfterResultsWords(c: Category, done: nat, total: nat)
    ensures LastWords(AfterResults(c, done, total)) == []
    ensures Iterated(AfterResults(c, done, total)) == if c.outcome.Returned? || c.outcome.Raised? then [c.name] else []
  {
    PairWords(WLog("crashed"), WLog("traceback"));
    if c.outcome.Raised? {
      var finished := WFinished(c.name, Percent(done + 1, total));
      var crash: seq<WorkerEvent> := [WLog("crashed"), WLog("traceback")];
      var report: seq<WorkerEvent> := [WResult("Run " + c.name), finished];
      assert AfterResults(c, done, total) == crash + report;
      PairWords(WResult("Run " + c.name), finished);
      LastWordsConcat(crash, report);
      IteratedConcat(crash, report);
    }
  }

  lemma {:induction false} LoopWords(cats: seq<Category>, done: nat)
    requires done <= |cats|
    ensures LastWords(LoopEvents(cats, done)) == []
    ensures Iterated(LoopEvents(cats, done)) == Names(cats[done..][..Passed(cats[done..])])
    ensures var n := Passed(cats[done..]);
            LoopExit(cats, done) == if n == |cats| - done then Normal else StopReason(cats[done + n])
    decreases |cats| - done
  {
    if done < |cats| {
      CategoryWords(cats[done], done, |cats|);
      assert cats[done..][1..] == cats[done + 1..];
      if Iterates(cats[done]) {
        LoopWords(cats, done + 1);
        LastWordsConcat(CategoryEvents(cats[done], done, |cats|), LoopEvents(cats, done + 1));
        IteratedConcat(CategoryEvents(cats[done], done, |cats|), LoopEvents(cats, done + 1));
        PassedNames(cats[done..]);
      }
    }
  }

  lemma PassedNames(cats: seq<Category>)
    requires cats != [] && Iterates(cats[0])
    ensures Passed(cats) == 1 + Passed(cats[1..])
    ensures Names(cats[..Passed(cats)]) == [cats[0].name] + Names(cats[1..][..Passed(cats[1..])])
  {
    assert cats[..Passed(cats)][1..] == cats[1..][..Passed(cats[1..])];
  }

  predicate ReachesLoop(job: Job) {
    job.importsOk && job.constructorOk && job.setupOk && !job.blocked && job.certificatesOk && job.planOk
  }

  /** The run goes through from end to end. */
  predicate GoesThrough(job: Job) {
    ReachesLoop(job) && Passed(job.categories) == |job.categories|
  }

  /** The last word of a run whose loop stops at c: a cancel is reported as such, an error as
      fatal, and an engine that takes the process down leaves none. */
  function StopWord(c: Category): seq<WorkerEvent> {
    if c.cancelFile then [WDone(Some(Cancelled))]
    else if c.badSelection then [WFatal("error")]
    else match c.outcome
      case CancelRaised(_) => [WDone(Some(Cancelled))]
      case ProcessExit(_) => []
      case _ => [WFatal("error")]
  }

  /** The worker reaches one of the statements that emit its last word: the executor module
      imports, and no engine code takes the process down past `except Exception`. */
  predicate Speaks(job: Job) {
    && job.importsOk
    && !(ReachesLoop(job) && Passed(job.categories) < |job.categories| && StopWord(job.categories[Passed(job.categories)]) == [])
  }

  /** The last word a job leads to, if any. */
  function Verdict(job: Job): seq<WorkerEvent> {
    if !job.importsOk then []
    else if !job.constructorOk then [WFatal("Failed to initialize run")]
    else if !job.setupOk then [WFatal("error")]
    else if job.blocked then [WDone(Some(Failed))]
    else if !job.certificatesOk || !job.planOk then [WFatal("error")]
    else if GoesThrough(job) then [WDone(Some(Completed))]
    else StopWord(job.categories[Passed(job.categories)])
  }

  /** A loop that gets as far as category n and no further, in terms of what happens there: the
      cancel file and a raised cancel end in done "cancelled", a malformed selection and an
      error report that fails in fatal, an exit of the process in silence; and exactly the
      categories before it are reported finished. */
  lemma StoppedLoop(job: Job, n: nat)
    requires ReachesLoop(job) && n < |job.categories|
    requires forall i :: 0 <= i < n ==>
               var c := job.categories[i];
               !c.cancelFile && !c.badSelection && (c.outcome.Returned? || c.outcome.Raised?)
    ensures var c, words := job.categories[n], LastWords(Transcript(job));
            && (c.cancelFile ==> words == [WDone(Some(Cancelled))])
            && (!c.cancelFile && c.badSelection ==> words == [WFatal("error")])
            && (!c.cancelFile && !c.badSelection && c.outcome.ReportRaised? ==> words == [WFatal("error")])
            && (!c.cancelFile && !c.badSelection && c.outcome.CancelRaised? ==> words == [WDone(Some(Cancelled))])
            && (!c.cancelFile && !c.badSelection && c.outcome.ProcessExit? ==> words == [])
    ensures var c := job.categories[n];
            c.cancelFile || c.badSelection || !(c.outcome.Returned? || c.outcome.Raised?) ==>
              Iterated(Transcript(job)) == Names(job.categories[..n])
  {
    var c := job.categories[n];
    if c.cancelFile || c.badSelection || !(c.outcome.Returned? || c.outcome.Raised?) {
      PassedIs(job.categories, n);
      TranscriptWords(job);
    }
  }

  lemma {:induction false} PassedIs(cats: seq<Category>, n: nat)
    requires n < |cats| && !Iterates(cats[n]) && forall i :: 0 <= i < n ==> Iterates(cats[i])
    ensures Passed(cats) == n
  {
    if n > 0 {
      assert Iterates(cats[0]);
      PassedIs(cats[1..], n - 1);
    }
  }

  /** An un-killed worker writes exactly one done or fatal line when it speaks at all, and
      none otherwise; the categories it reports finished are the ones that went through, in
      order. */
  lemma TranscriptWords(job: Job)
    ensures LastWords(Transcript(job)) == Verdict(job)
    ensures |LastWords(Transcript(job))| == 1 <==> Speaks(job)
    ensures Iterated(Transcript(job))
         == if ReachesLoop(job) then Names(job.categories[..Passed(job.categories)]) else []
  {
    OpeningIsQuiet(job);
    if ReachesLoop(job) {
      LoopTranscript(job);
    } else if !job.importsOk {
      QuietWords(Logs(job.chatter.loading));
    } else if !job.constructorOk {
      QuietPrefix(Logs(job.chatter.loading), [WFatal("Failed to initialize run")]);
    } else {
      ShortTranscript(job);
    }
  }

  /** A run that does not reach the loop writes quiet lines, and then its last word. */
  lemma ShortTranscript(job: Job)
    requires job.importsOk && job.constructorOk && !ReachesLoop(job)
    ensures LastWords(Transcript(job)) == Verdict(job)
    ensures Iterated(Transcript(job)) == []
  {
    OpeningIsQuiet(job);
    QuietPrefix(Logs(job.chatter.loading), RunOutput(job).0 + Ending(RunOutput(job).1));
    if !job.setupOk {
      ErrorWords(Logs(job.chatter.setup));
    } else if job.blocked {
      var quiet: seq<WorkerEvent> := [WLog("[NETGUARD]"), WResult("Outbound target policy check")];
      assert Opening(job) + Refusal() + [] == (Opening(job) + quiet) + [WDone(Some(Failed))];
      QuietPrefix(Opening(job) + quiet, [WDone(Some(Failed))]);
    } else if !job.certificatesOk {
      ErrorWords(Opening(job));
    } else {
      ErrorWords(Opening(job) + Planning(job));
    }
  }

  lemma ErrorWords(quiet: seq<WorkerEvent>)
    requires Quiet(quiet)
    ensures LastWords(quiet + Ending(Error)) == [WFatal("error")] && Iterated(quiet + Ending(Error)) == []
  {
    QuietPrefix(quiet, Ending(Error));
    PairWords(WLog("traceback"), WFatal("error"));
  }

  /** What follows the category loop, whichever way it is left. */
  function AfterLoop(exit: Exit): seq<WorkerEvent> {
    Farewell(exit) + Ending(exit)
  }

  lemma AfterLoopWords(exit: Exit)
    ensures LastWords(AfterLoop(exit)) == match exit
      case Normal => [WDone(Some(Completed))]
      case Gone => []
      case Cancel => [WDone(Some(Cancelled))]
      case Error => [WFatal("error")]
    ensures Iterated(AfterLoop(exit)) == []
  {
    assert AfterLoop(exit) == if exit.Normal? then Farewell(exit) else Ending(exit);
    PairWords(WDone(Some(Completed)), WLog("Run complete"));
    PairWords(WLog("traceback"), WFatal("error"));
  }

  lemma LoopTranscript(job: Job)
    requires ReachesLoop(job)
    ensures LastWords(Transcript(job)) == Verdict(job)
    ensures Iterated(Transcript(job)) == Names(job.categories[..Passed(job.categories)])
  {
    var loop, after := LoopEvents(job.categories, 0), AfterLoop(LoopExit(job.categories, 0));
    LoopSays(job);
    TranscriptShape(job);
    OpeningIsQuiet(job);
    FramedWords(Prelude(job), loop, after);
  }

  /** What the loop and what follows it say, whatever comes before. */
  lemma LoopSays(job: Job)
    requires ReachesLoop(job)
    ensures LastWords(LoopEvents(job.categories, 0)) == []
    ensures Iterated(LoopEvents(job.categories, 0)) == Names(job.categories[..Passed(job.categories)])
    ensures LastWords(AfterLoop(LoopExit(job.categories, 0))) == Verdict(job)
    ensures Iterated(AfterLoop(LoopExit(job.categories, 0))) == []
  {
    WholeLoop(job.categories);
    AfterLoopWords(LoopExit(job.categories, 0));
  }

  lemma WholeLoop(cats: seq<Category>)
    ensures LastWords(LoopEvents(cats, 0)) == []
    ensures Iterated(LoopEvents(cats, 0)) == Names(cats[..Passed(cats)])
    ensures LoopExit(cats, 0) == if Passed(cats) == |cats| then Normal else StopReason(cats[Passed(cats)])
  {
    LoopWords(cats, 0);
    assert cats[0..] == cats;
  }

  lemma FramedWords(prelude: seq<WorkerEvent>, loop: seq<WorkerEvent>, after: seq<WorkerEvent>)
    requires Quiet(prelude) && LastWords(loop) == [] && Iterated(after) == []
    ensures LastWords(prelude + (loop + after)) == LastWords(after)
    ensures Iterated(prelude + (loop + after)) == Iterated(loop)
  {
    QuietPrefix(prelude, loop + after);
    LastWordsConcat(loop, after);
    IteratedConcat(loop, after);
  }

  /** Everything before the category loop. */
  function Prelude(job: Job): seq<WorkerEvent> {
    Logs(job.chatter.loading) + Opening(job) + Planning(job)
  }

  lemma TranscriptShape(job: Job)
    requires ReachesLoop(job)
    ensures Transcript(job) == Prelude(job) + (LoopEvents(job.categories, 0) + AfterLoop(LoopExit(job.categories, 0)))
  {
    var loop, exit := LoopEvents(job.categories, 0), LoopExit(job.categories, 0);
    Shape(Logs(job.chatter.loading), Opening(job), Planning(job), loop, Farewell(exit), Ending(exit));
  }

  lemma Shape(a: seq<WorkerEvent>, b: seq<WorkerEvent>, c: seq<WorkerEvent>,
              loop: seq<WorkerEvent>, farewell: seq<WorkerEvent>, ending: seq<WorkerEvent>)
    ensures a + ((b + (c + loop + farewell)) + ending) == (a + b + c) + (loop + (farewell + ending))
  {
    Assoc(b, c + loop + farewell, ending);
    Assoc(c + loop, farewell, ending);
    Assoc(c, loop, farewell + ending);
    Assoc(a + b, c, loop + (farewell + ending));
    Assoc(a, b, c + (loop + (farewell + ending)));
  }

  lemma FirstLineIsLog(job: Job)
    requires ReachesLoop(job)
    ensures |Transcript(job)| > 0 && Transcript(job)[0].WLog?
  {
    TranscriptShape(job);
    LogsAreQuiet(job.chatter.loading);
    LogsAreQuiet(job.chatter.setup);
    LogsAreQuiet(job.chatter.checking);
    LogsAreQuiet(job.chatter.planning);
    var prelude := Prelude(job);
    assert forall e :: e in Opening(job) ==> e.WLog?;
    assert forall e :: e in Planning(job) ==> e.WLog?;
    assert prelude[0] in prelude && Transcript(job)[0] == prelude[0];
  }

  /** "completed" is written exactly when every enabled category was iterated. */
  lemma CompletedMeansAllIterated(job: Job)
    ensures WDone(Some(Completed)) in LastWords(Transcript(job)) <==> GoesThrough(job)
    ensures GoesThrough(job) ==> Iterated(Transcript(job)) == Names(job.categories)
  {
    TranscriptWords(job);
    assert GoesThrough(job) ==> job.categories[..|job.categories|] == job.categories;
  }

  /** The lines a supervisor has read are a prefix of the transcript; so are their last words. */
  lemma {:induction false} PrefixWords(events: seq<WorkerEvent>, n: nat)
    requires n <= |events|
    ensures LastWords(events[..n]) <= LastWords(events)
    ensures forall e :: e in LastWords(events) ==> e in events && IsLastWord(e)
    ensures forall e :: e in events && IsLastWord(e) ==> e in LastWords(events)
  {
    if n > 0 {
      PrefixWords(events[1..], n - 1);
      assert events[..n][1..] == events[1..][..n - 1];
    } else if events != [] {
      PrefixWords(events[1..], 0);
      assert events[..0] == [];
    }
  }

  // ---- what the transcript says besides -----------------------------------------------

  /** The results a sequence of worker lines reports, and the progress it shows. */
  function ResultOf(e: WorkerEvent): seq<string> {
    if e.WResult? then [e.name] else []
  }

  function MarkOf(e: WorkerEvent): seq<(string, nat)> {
    if e.WStarted? || e.WFinished? then [(e.category, e.percent)] else []
  }

  function FoundIn(o: Output): seq<string> {
    if o.Result? then [o.name] else []
  }

  /** The results of one category that the loop handles: what its engine found before it
      returned or raised, and an ERROR result of its own if it crashed. */
  function ReportedBy(c: Category): seq<string> {
    if c.cancelFile || c.badSelection then []
    else FlatMap(FoundIn, c.outcome.output) + if c.outcome.Raised? then ["Run " + c.name] else []
  }

  /** The categories the loop handles: those it gets through, and the one it stops at. */
  function Handled(job: Job): seq<Category> {
    if !ReachesLoop(job) then []
    else if GoesThrough(job) then job.categories
    else job.categories[..Passed(job.categories) + 1]
  }

  lemma {:induction false} Nothing<B>(f: WorkerEvent -> seq<B>, events: seq<WorkerEvent>)
    requires forall e :: e in events ==> f(e) == []
    ensures FlatMap(f, events) == []
  {
    if events != [] {
      Nothing(f, events[1..]);
      assert events[0] in events;
    }
  }

  lemma {:induction false} OutputResults(output: seq<Output>)
    ensures FlatMap(ResultOf, OutputEvents(output)) == FlatMap(FoundIn, output)
    ensures FlatMap(MarkOf, OutputEvents(output)) == []
  {
    if output != [] {
      OutputResults(output[1..]);
    }
  }

  lemma HeadSays(c: Category, done: nat, total: nat)
    ensures FlatMap(ResultOf, CategoryHead(c, done, total)) == []
    ensures FlatMap(MarkOf, CategoryHead(c, done, total)) == [(c.name, Percent(done, total))]
  {
    var head := CategoryHead(c, done, total);
    Nothing(ResultOf, head);
    Nothing(MarkOf, head[1..]);
    assert head[0] == WStarted(c.name, Percent(done, total));
  }

  lemma AfterResultsSay(c: Category, done: nat, total: nat)
    ensures FlatMap(ResultOf, AfterResults(c, done, total)) == if c.outcome.Raised? then ["Run " + c.name] else []
    ensures FlatMap(MarkOf, AfterResults(c, done, total)) == FinishMark(c, done, total)
  {
    var after, finished := AfterResults(c, done, total), WFinished(c.name, Percent(done + 1, total));
    if c.outcome.Returned? {
      FlatMapOne(ResultOf, finished);
      FlatMapOne(MarkOf, finished);
    } else if c.outcome.Raised? {
      CrashSays(WResult("Run " + c.name), finished);
      assert after == [WLog("crashed"), WLog("traceback")] + [WResult("Run " + c.name), finished];
    } else {
      Nothing(ResultOf, after);
      Nothing(MarkOf, after);
    }
  }

  lemma CrashSays(result: WorkerEvent, finished: WorkerEvent)
    requires result.WResult? && finished.WFinished?
    ensures FlatMap(ResultOf, [WLog("crashed"), WLog("traceback")] + [result, finished]) == [result.name]
    ensures FlatMap(MarkOf, [WLog("crashed"), WLog("traceback")] + [result, finished]) == [(finished.category, finished.percent)]
  {
    var logs: seq<WorkerEvent> := [WLog("crashed"), WLog("traceback")];
    Nothing(ResultOf, logs);
    Nothing(MarkOf, logs);
    FlatMapConcat(ResultOf, logs, [result, finished]);
    FlatMapConcat(MarkOf, logs, [result, finished]);
    FlatMapPair(ResultOf, result, finished);
    FlatMapPair(MarkOf, result, finished);
  }

  function StartMark(c: Category, done: nat, total: nat): seq<(string, nat)> {
    if c.cancelFile then [] else [(c.name, Percent(done, total))]
  }

  function FinishMark(c: Category, done: nat, total: nat): seq<(string, nat)> {
    if c.outcome.Returned? || c.outcome.Raised? then [(c.name, Percent(done + 1, total))] else []
  }

  function Marks(c: Category, done: nat, total: nat): seq<(string, nat)> {
    StartMark(c, done, total) + if Iterates(c) then FinishMark(c, done, total) else []
  }

  lemma CategoryResults(c: Category, done: nat, total: nat)
    ensures FlatMap(ResultOf, CategoryEvents(c, done, total)) == ReportedBy(c)
  {
    HeadSays(c, done, total);
    if !c.cancelFile && !c.badSelection {
      OutputResults(c.outcome.output);
      AfterResultsSay(c, done, total);
      Parts(ResultOf, CategoryHead(c, done, total), [], OutputEvents(c.outcome.output),
            FlatMap(FoundIn, c.outcome.output), AfterResults(c, done, total));
      assert [] + FlatMap(FoundIn, c.outcome.output) == FlatMap(FoundIn, c.outcome.output);
    }
  }

  lemma CategoryMarks(c: Category, done: nat, total: nat)
    ensures FlatMap(MarkOf, CategoryEvents(c, done, total)) == Marks(c, done, total)
  {
    HeadSays(c, done, total);
    if !c.cancelFile && !c.badSelection {
      OutputResults(c.outcome.output);
      AfterResultsSay(c, done, total);
      Parts(MarkOf, CategoryHead(c, done, total), StartMark(c, done, total), OutputEvents(c.outcome.output), [],
            AfterResults(c, done, total));
      assert StartMark(c, done, total) + [] == StartMark(c, done, total);
    }
  }

  lemma Parts<B>(f: WorkerEvent -> seq<B>, head: seq<WorkerEvent>, x: seq<B>, output: seq<WorkerEvent>, y: seq<B>,
                 after: seq<WorkerEvent>)
    requires FlatMap(f, head) == x && FlatMap(f, output) == y
    ensures FlatMap(f, head + output + after) == (x + y) + FlatMap(f, after)
  {
    FlatMapConcat(f, head + output, after);
    FlatMapConcat(f, head, output);
  }

  lemma {:induction false} LoopResults(cats: seq<Category>, done: nat, last: nat)
    requires done <= last <= |cats| && forall i :: done <= i < last ==> Iterates(cats[i])
    requires last < |cats| ==> !Iterates(cats[last])
    ensures FlatMap(ResultOf, LoopEvents(cats, done))
         == FlatMap(ReportedBy, cats[done..if last < |cats| then last + 1 else last])
    decreases last - done
  {
    var end := if last < |cats| then last + 1 else last;
    var rest := cats[done..end];
    if done < |cats| {
      CategoryResults(cats[done], done, |cats|);
      assert rest[0] == cats[done] && rest[1..] == cats[done + 1..end];
      if done < last {
        LoopResults(cats, done + 1, last);
        FlatMapConcat(ResultOf, CategoryEvents(cats[done], done, |cats|), LoopEvents(cats, done + 1));
      } else {
        assert rest[1..] == [] && ReportedBy(cats[done]) + [] == ReportedBy(cats[done]);
      }
    }
  }

  /** Every result is passed on, in order: those the engines found before they returned, raised
      or were cancelled, and one for each engine that crashed; a refusal by the network policy
      is reported as the only one. */
  lemma ResultsArePassedOn(job: Job)
    ensures FlatMap(ResultOf, Transcript(job))
         == if job.importsOk && job.constructorOk && job.setupOk && job.blocked then ["Outbound target policy check"]
            else FlatMap(ReportedBy, Handled(job))
  {
    if ReachesLoop(job) {
      LoopOnly(ResultOf, job);
      LoopResults(job.categories, 0, Passed(job.categories));
      assert Handled(job) == job.categories[0..|Handled(job)|];
    } else {
      EarlyResults(job);
    }
  }

  /** Log lines and last words. */
  predicate Plain(e: WorkerEvent) {
    e.WLog? || IsLastWord(e)
  }

  lemma OpeningIsLogs(job: Job)
    ensures forall e :: e in Logs(job.chatter.loading) + Logs(job.chatter.setup) ==> e.WLog?
    ensures forall e :: e in Opening(job) ==> e.WLog?
    ensures forall e :: e in Planning(job) ==> e.WLog?
  {
    LogsAreQuiet(job.chatter.loading);
    LogsAreQuiet(job.chatter.setup);
    LogsAreQuiet(job.chatter.checking);
    LogsAreQuiet(job.chatter.planning);
  }

  lemma PreludeIsPlain(job: Job)
    ensures forall e :: e in Prelude(job) ==> Plain(e)
  {
    OpeningIsLogs(job);
    assert forall e :: e in Logs(job.chatter.loading) ==> e in Logs(job.chatter.loading) + Logs(job.chatter.setup);
  }

  lemma AfterLoopIsPlain(exit: Exit)
    ensures forall e :: e in AfterLoop(exit) ==> Plain(e)
  {
  }

  /** Of a run that reaches the loop, only the loop says more than that. */
  lemma LoopOnly<B>(f: WorkerEvent -> seq<B>, job: Job)
    requires ReachesLoop(job) && forall e :: Plain(e) ==> f(e) == []
    ensures FlatMap(f, Transcript(job)) == FlatMap(f, LoopEvents(job.categories, 0))
  {
    TranscriptShape(job);
    PreludeIsPlain(job);
    AfterLoopIsPlain(LoopExit(job.categories, 0));
    Framed(f, Prelude(job), LoopEvents(job.categories, 0), AfterLoop(LoopExit(job.categories, 0)));
  }

  lemma Framed<B>(f: WorkerEvent -> seq<B>, prelude: seq<WorkerEvent>, loop: seq<WorkerEvent>, after: seq<WorkerEvent>)
    requires (forall e :: e in prelude ==> f(e) == []) && (forall e :: e in after ==> f(e) == [])
    ensures FlatMap(f, prelude + (loop + after)) == FlatMap(f, loop)
  {
    Nothing(f, prelude);
    Nothing(f, after);
    FlatMapConcat(f, prelude, loop + after);
    FlatMapConcat(f, loop, after);
  }

  lemma EarlyResults(job: Job)
    requires !ReachesLoop(job)
    ensures FlatMap(ResultOf, Transcript(job))
         == if job.importsOk && job.constructorOk && job.setupOk && job.blocked then ["Outbound target policy check"] else []
  {
    LogsAreQuiet(job.chatter.loading);
    if !job.importsOk || !job.constructorOk {
      Nothing(ResultOf, Transcript(job));
    } else {
      RefusedResults(job);
      FramedResults(Logs(job.chatter.loading), RunOutput(job).0, RunOutput(job).1);
    }
  }

  lemma FramedResults(loading: seq<WorkerEvent>, output: seq<WorkerEvent>, exit: Exit)
    requires forall e :: e in loading ==> e.WLog?
    ensures FlatMap(ResultOf, loading + (output + Ending(exit))) == FlatMap(ResultOf, output)
  {
    Nothing(ResultOf, loading);
    Nothing(ResultOf, Ending(exit));
    FlatMapConcat(ResultOf, loading, output + Ending(exit));
    FlatMapConcat(ResultOf, output, Ending(exit));
  }

  lemma RefusedResults(job: Job)
    requires job.importsOk && job.constructorOk && !ReachesLoop(job)
    ensures FlatMap(ResultOf, RunOutput(job).0) == if job.setupOk && job.blocked then ["Outbound target policy check"] else []
  {
    OpeningIsLogs(job);
    if !job.setupOk {
      LogsSayNothing(Logs(job.chatter.setup));
    } else if job.blocked {
      LogsSayNothing(Opening(job));
      FlatMapConcat(ResultOf, Opening(job), Refusal());
      RefusalSays();
    } else if !job.certificatesOk {
      LogsSayNothing(Opening(job));
    } else {
      LogsSayNothing(Opening(job) + Planning(job));
    }
  }

  lemma LogsSayNothing(logs: seq<WorkerEvent>)
    requires forall e :: e in logs ==> e.WLog?
    ensures FlatMap(ResultOf, logs) == []
  {
    Nothing(ResultOf, logs);
  }

  lemma RefusalSays()
    ensures FlatMap(ResultOf, Refusal()) == ["Outbound target policy check"]
  {
    assert Refusal()[1..] == [WResult("Outbound target policy check"), WDone(Some(Failed))];
    FlatMapPair(ResultOf, WResult("Outbound target policy check"), WDone(Some(Failed)));
  }

  /** p is the share of `done` in `total`, in whole percent. */
  predicate IsShare(p: nat, done: nat, total: nat) {
    p * total <= 100 * done < (p + 1) * total
  }

  lemma PercentIsShare(done: nat, total: nat)
    requires total > 0
    ensures IsShare(Percent(done, total), done, total)
  {
    Divide(done * 100, total);
  }

  lemma Divide(a: nat, b: nat)
    requires b > 0
    ensures (a / b) * b <= a < (a / b + 1) * b
  {
    assert a == (a / b) * b + a % b;
  }

  /** The marks of the categories from `done` on, up to the one the loop stops at. */
  function MarksFrom(cats: seq<Category>, done: nat, last: nat): seq<(string, nat)>
    requires done <= last <= |cats|
    decreases last - done
  {
    if done < last then Marks(cats[done], done, |cats|) + MarksFrom(cats, done + 1, last)
    else if last < |cats| then Marks(cats[last], last, |cats|)
    else []
  }

  lemma {:induction false} LoopMarks(cats: seq<Category>, done: nat, last: nat)
    requires done <= last <= |cats| && forall i :: done <= i < last ==> Iterates(cats[i])
    requires last < |cats| ==> !Iterates(cats[last])
    ensures FlatMap(MarkOf, LoopEvents(cats, done)) == MarksFrom(cats, done, last)
    decreases last - done
  {
    if done < |cats| {
      CategoryMarks(cats[done], done, |cats|);
      if done < last {
        LoopMarks(cats, done + 1, last);
        FlatMapConcat(MarkOf, CategoryEvents(cats[done], done, |cats|), LoopEvents(cats, done + 1));
      }
    }
  }

  /** The marks of category i. */
  predicate Marked(marks: seq<(string, nat)>, at: nat, cats: seq<Category>, i: nat, last: nat)
    requires i <= last <= |cats|
  {
    && (i < last ==>
          && at + 1 < |marks|
          && marks[at] == (cats[i].name, Percent(i, |cats|)) && marks[at + 1] == (cats[i].name, Percent(i + 1, |cats|)))
    && (i == last < |cats| && !cats[i].cancelFile ==> at < |marks| && marks[at] == (cats[i].name, Percent(i, |cats|)))
  }

  lemma {:induction false} MarkAt(cats: seq<Category>, done: nat, last: nat, i: nat)
    requires done <= i <= last <= |cats| && forall k :: done <= k < last ==> Iterates(cats[k])
    requires last < |cats| ==> !Iterates(cats[last])
    ensures var marks := MarksFrom(cats, done, last);
            && |marks| == 2 * (last - done) + (if last < |cats| && !cats[last].cancelFile then 1 else 0)
            && Marked(marks, 2 * (i - done), cats, i, last)
    decreases last - done
  {
    if done < last {
      var first, rest := Marks(cats[done], done, |cats|), MarksFrom(cats, done + 1, last);
      assert Iterates(cats[done]) && |first| == 2;
      if i == done {
        MarkAt(cats, done + 1, last, done + 1);
      } else {
        MarkAt(cats, done + 1, last, i);
        MarkedLater(first, rest, 2 * (i - done) - 2, cats, i, last);
      }
    }
  }

  lemma MarkedLater(first: seq<(string, nat)>, rest: seq<(string, nat)>, at: nat, cats: seq<Category>, i: nat, last: nat)
    requires |first| == 2 && i <= last <= |cats| && Marked(rest, at, cats, i, last)
    ensures Marked(first + rest, at + 2, cats, i, last)
  {
  }

  /** The progress shown: each category that is got through is announced with the share of the
      ones before it and finished with its own included, and the one the loop stops at, unless
      the cancel file stops it, is announced. */
  lemma ProgressIsShown(job: Job, i: nat)
    requires ReachesLoop(job) && i <= Passed(job.categories)
    ensures var marks, n, cats := FlatMap(MarkOf, Transcript(job)), Passed(job.categories), job.categories;
            && |marks| == 2 * n + (if n < |cats| && !cats[n].cancelFile then 1 else 0)
            && (i < n ==> HasMark(marks, 2 * i, cats[i].name, i, |cats|) && HasMark(marks, 2 * i + 1, cats[i].name, i + 1, |cats|))
            && (i == n < |cats| && !cats[i].cancelFile ==> HasMark(marks, 2 * i, cats[i].name, i, |cats|))
  {
    var cats, n := job.categories, Passed(job.categories);
    LoopOnly(MarkOf, job);
    LoopMarks(cats, 0, n);
    MarkAt(cats, 0, n, i);
    MarkedShown(MarksFrom(cats, 0, n), 2 * i, cats, i, n);
  }

  lemma MarkedShown(marks: seq<(string, nat)>, at: nat, cats: seq<Category>, i: nat, n: nat)
    requires i <= n <= |cats| && Marked(marks, at, cats, i, n)
    ensures i < n ==> HasMark(marks, at, cats[i].name, i, |cats|) && HasMark(marks, at + 1, cats[i].name, i + 1, |cats|)
    ensures i == n < |cats| && !cats[i].cancelFile ==> HasMark(marks, at, cats[i].name, i, |cats|)
  {
    if i < n {
      HasShare(marks, at, cats[i].name, i, |cats|);
      HasShare(marks, at + 1, cats[i].name, i + 1, |cats|);
    } else if n < |cats| && !cats[i].cancelFile {
      HasShare(marks, at, cats[i].name, i, |cats|);
    }
  }

  /** Mark k shows this category with the share of `done` in `total`. */
  predicate HasMark(marks: seq<(string, nat)>, k: nat, name: string, done: nat, total: nat) {
    k < |marks| && marks[k].0 == name && IsShare(marks[k].1, done, total)
  }

  lemma HasShare(marks: seq<(string, nat)>, k: nat, name: string, done: nat, total: nat)
    requires total > 0 && k < |marks| && marks[k] == (name, Percent(done, total))
    ensures HasMark(marks, k, name, done, total)
  {
    PercentIsShare(done, total);
  }

  // ---- lines that are neither ------------------------------------------------------------

  function LineOf(e: WorkerEvent): seq<string> {
    if e.WLog? then [e.message] else []
  }

  lemma {:induction false} LogsSay(messages: seq<string>)
    ensures FlatMap(LineOf, Logs(messages)) == messages
  {
    if messages != [] {
      LogsSay(messages[1..]);
      assert messages == [messages[0]] + messages[1..];
    }
  }

  /** A run that reaches the loop begins with what was printed while the executor loaded, the lines
      of the set-up and of the pre-flight checks, and those of the planning, all of them, in
      order, around the worker's own. */
  lemma PreludeIsWritten(job: Job)
    requires ReachesLoop(job)
    ensures Prelude(job) <= Transcript(job)
    ensures FlatMap(LineOf, Prelude(job))
         == job.chatter.loading + (job.chatter.setup + ["starting"] + job.chatter.checking)
            + (["enabled"] + (if job.selection then ["selection"] else []) + job.chatter.planning)
  {
    TranscriptShape(job);
    var selection: seq<WorkerEvent> := if job.selection then [WLog("selection")] else [];
    LogsSay(job.chatter.loading);
    LogsSay(job.chatter.setup);
    LogsSay(job.chatter.checking);
    LogsSay(job.chatter.planning);
    FlatMapOne(LineOf, WLog("starting"));
    FlatMapOne(LineOf, WLog("enabled"));
    FlatMapOne(LineOf, WLog("selection"));
    Parts(LineOf, Logs(job.chatter.setup), job.chatter.setup, [WLog("starting")], ["starting"], Logs(job.chatter.checking));
    Parts(LineOf, [WLog("enabled")], ["enabled"], selection, FlatMap(LineOf, selection), Logs(job.chatter.planning));
    FlatMapConcat(LineOf, Logs(job.chatter.loading) + Opening(job), Planning(job));
    FlatMapConcat(LineOf, Logs(job.chatter.loading), Opening(job));
  }

  // ---- the engine's own lines ---------------------------------------------------------

  lemma {:induction false} OutputAt(output: seq<Output>, k: nat)
    requires k < |output|
    ensures |OutputEvents(output)| == |output|
    ensures OutputEvents(output)[k] == if output[k].Line? then WLog(output[k].message) else WResult(output[k].name)
  {
    if k > 0 {
      OutputAt(output[1..], k - 1);
    } else if |output| > 1 {
      OutputAt(output[1..], 0);
    }
  }

  /** The loop's lines from `done` on contain those of category i. */
  lemma {:induction false} LoopQuotes(cats: seq<Category>, done: nat, i: nat)
    returns (before: seq<WorkerEvent>, after: seq<WorkerEvent>)
    requires done <= i < |cats| && forall k :: done <= k < i ==> Iterates(cats[k])
    ensures LoopEvents(cats, done) == before + (CategoryEvents(cats[i], i, |cats|) + after)
    decreases i - done
  {
    var now := CategoryEvents(cats[done], done, |cats|);
    if done < i {
      before, after := LoopQuotes(cats, done + 1, i);
      Assoc(now, before, CategoryEvents(cats[i], i, |cats|) + after);
      before := now + before;
    } else {
      before, after := [], if Iterates(cats[i]) then LoopEvents(cats, i + 1) else [];
      assert [] + (now + after) == now + after && now + [] == now;
    }
  }

  /** Whatever the engine of a category writes before it returns, raises or is cancelled is in
      the transcript as one unbroken piece, line by line and in order (`OutputAt`). */
  lemma EngineIsQuoted(job: Job, i: nat) returns (before: seq<WorkerEvent>, after: seq<WorkerEvent>)
    requires ReachesLoop(job) && i < |job.categories| && i <= Passed(job.categories)
    requires !job.categories[i].cancelFile && !job.categories[i].badSelection
    ensures Transcript(job) == before + (OutputEvents(job.categories[i].outcome.output) + after)
  {
    var cats, c := job.categories, job.categories[i];
    var ahead, behind := LoopQuotes(cats, 0, i);
    TranscriptShape(job);
    var head, output := CategoryHead(c, i, |cats|), OutputEvents(c.outcome.output);
    after := AfterResults(c, i, |cats|) + (behind + AfterLoop(LoopExit(cats, 0)));
    before := Prelude(job) + (ahead + head);
    Quoted(Prelude(job), ahead, head, output, AfterResults(c, i, |cats|), behind, AfterLoop(LoopExit(cats, 0)));
  }

  lemma Quoted<T>(a: seq<T>, b: seq<T>, head: seq<T>, output: seq<T>, results: seq<T>, c: seq<T>, d: seq<T>)
    ensures a + ((b + ((head + output + results) + c)) + d) == (a + (b + head)) + (output + (results + (c + d)))
  {
    Assoc(b, (head + output + results) + c, d);
    Assoc(head + output + results, c, d);
    Assoc(head + output, results, c + d);
    Assoc(head, output, results + (c + d));
    Assoc(b, head, output + (results + (c + d)));
    Assoc(a, b + head, output + (results + (c + d)));
  }
}
