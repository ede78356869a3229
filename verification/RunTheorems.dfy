/** Two statements about every schedule of a run: what a schedule without a late cancel
    promises, and how many steps the supervisor can take before the run is finished. */
module RunTheorems {
  import opened Options
  import opened RunEvents
  import opened RunLog
  import opened RunLifecycle

  // ---- schedules without a late cancel ---------------------------------------------------

  /** The same worker where no late cancel can come. */
  function Calm(c: Config): Config {
    c.(lateCancels := false)
  }

  lemma CalmEnabled(c: Config, s: State, l: Label)
    requires s.late.NoLate? && Enabled(c, s, l) && !l.LateCancel?
    ensures Enabled(Calm(c), s, l)
    ensures !(l.LateWrite? || l.LateSnapshot? || l.LateBegin? || l.LateCommit?)
  {
  }

  lemma CalmStep(c: Config, s: State, l: Label)
    requires s.late.NoLate? && Enabled(c, s, l) && !l.LateCancel? && Enabled(Calm(c), s, l)
    ensures Step(Calm(c), s, l) == Step(c, s, l)
  {
  }

  lemma StaysCalm(c: Config, s: State, l: Label)
    requires s.late.NoLate? && Enabled(c, s, l) && !l.LateCancel?
    ensures Step(c, s, l).late.NoLate?
  {
    if l.Commit? {
      if Refused(s.row, s.begun.value) { RefusedFields(s); } else { AcceptedFields(s); }
    } else if l.Consume? {
      HandleFrame(s.(consumed := s.consumed + 1), c.script[s.consumed]);
    } else if l.Eof? {
      LeaveFrame(s, s.terminal);
    } else if l.Crash? {
      LeaveFrame(s.(crashed := true), Some(Failed));
    } else if Aside(l) {
      AsideStaysCalm(c, s, l);
    } else {
      PlainFrame(c, s, l);
    }
  }

  lemma AsideStaysCalm(c: Config, s: State, l: Label)
    requires s.late.NoLate? && Enabled(c, s, l) && Aside(l) && !l.LateCancel?
    ensures Step(c, s, l).late.NoLate?
  {
  }

  lemma {:induction false} CalmRun(c: Config, s: State, ls: seq<Label>)
    requires s.late.NoLate? && Valid(c, s, ls) && LateCancel !in ls
    ensures Valid(Calm(c), s, ls) && After(Calm(c), s, ls) == After(c, s, ls)
    ensures After(c, s, ls).late.NoLate?
    decreases ls
  {
    if ls != [] {
      assert ls[0] in ls;
      CalmEnabled(c, s, ls[0]);
      CalmStep(c, s, ls[0]);
      StaysCalm(c, s, ls[0]);
      CalmRun(c, Step(c, s, ls[0]), ls[1..]);
    }
  }

  /** A schedule in which no cancel found the run without a process keeps both lifecycle
      promises even where such cancels are possible: from any moment s of it to any later
      moment t a terminal status is unchanged, and at t nothing follows a terminal event; a run
      that is finished at t holds exactly one, carrying the stored status. */
  lemma NoLateCancelKeepsPromises(c: Config, ls: seq<Label>, ms: seq<Label>)
    requires Articulate(c) && Valid(c, Init(), ls) && Valid(c, After(c, Init(), ls), ms)
    requires LateCancel !in ls && LateCancel !in ms
    ensures var s := After(c, Init(), ls);
            var t := After(c, s, ms);
            && (IsTerminal(s.row.status) ==> t.row.status == s.row.status)
            && Dense(t.row) && !t.pc.Stuck? && NothingAfterAnnouncement(t.row)
            && (t.pc.Finished? ==>
                  IsTerminal(t.row.status) && t.row.lastSeq in t.row.events
                  && t.row.events[t.row.lastSeq] == RunStatus(t.row.status))
  {
    CalmRun(c, Init(), ls);
    CalmRun(c, After(c, Init(), ls), ms);
    InitInv(Calm(c));
    RunKeeps(Calm(c), Init(), ls);
    RunKeeps(Calm(c), After(c, Init(), ls), ms);
  }

  // ---- how long a run can take -------------------------------------------------------------

  /** A step of the supervisor's own task. */
  predicate Own(l: Label) {
    || l.Register? || l.MarkRunning? || l.Snapshot? || l.Begin? || l.Commit?
    || l.Consume? || l.Eof? || l.Timeout? || l.Crash? || l.WriteStatus?
  }

  function OwnSteps(ls: seq<Label>): nat {
    if ls == [] then 0 else (if Own(ls[0]) then 1 else 0) + OwnSteps(ls[1..])
  }

  /** What is left for the supervisor to do at most: three steps for every worker line it has
      not read, and the rest of its own path. */
  function Left(c: Config, s: State): nat
    requires s.consumed <= |c.script|
  {
    Distance(s) + 3 * (|c.script| - s.consumed)
  }

  lemma OwnStepShortens(c: Config, s: State, l: Label)
    requires Inv(c, s) && Enabled(c, s, l) && Own(l) && !l.Commit?
    ensures Step(c, s, l).consumed <= |c.script| && Left(c, Step(c, s, l)) < Left(c, s)
  {
  }

  lemma CommitShortens(c: Config, s: State)
    requires Inv(c, s) && Enabled(c, s, Commit)
    ensures CommitStep(s).consumed == s.consumed && Left(c, CommitStep(s)) < Left(c, s)
  {
    CommitKeepsDense(s.row, s.begun.value);
  }

  lemma OtherStepsKeepLeft(c: Config, s: State, l: Label)
    requires !c.lateCancels && Inv(c, s) && Enabled(c, s, l) && !Own(l)
    ensures Step(c, s, l).consumed == s.consumed && Left(c, Step(c, s, l)) == Left(c, s)
  {
  }

  lemma {:induction false} OwnStepsAreBounded(c: Config, s: State, ls: seq<Label>)
    requires !c.lateCancels && Inv(c, s) && Valid(c, s, ls)
    ensures Inv(c, After(c, s, ls)) && OwnSteps(ls) + Left(c, After(c, s, ls)) <= Left(c, s)
    decreases ls
  {
    if ls != [] {
      StepKeeps(c, s, ls[0]);
      if !Own(ls[0]) {
        OtherStepsKeepLeft(c, s, ls[0]);
      } else if ls[0].Commit? {
        CommitShortens(c, s);
      } else {
        OwnStepShortens(c, s, ls[0]);
      }
      OwnStepsAreBounded(c, Step(c, s, ls[0]), ls[1..]);
    }
  }

  /** Every run, whatever the drainer, the timeout and the cancels do: the supervisor takes at
      most 19 steps and three more for every worker line; as long as the run is not finished it
      can take another one, so it cannot stop short; and once it is finished it takes none. */
  lemma EveryRunFinishes(c: Config, ls: seq<Label>)
    requires Articulate(c) && !c.lateCancels && Valid(c, Init(), ls)
    ensures var s := After(c, Init(), ls);
            && OwnSteps(ls) <= 19 + 3 * |c.script|
            && (OwnSteps(ls) == 19 + 3 * |c.script| ==> s.pc.Finished?)
            && (!s.pc.Finished? <==> exists l :: Own(l) && Enabled(c, s, l))
  {
    InitInv(c);
    OwnStepsAreBounded(c, Init(), ls);
    var s := After(c, Init(), ls);
    if !s.pc.Finished? {
      NextIsCloser(c, s);
      assert Own(NextLabel(s)) && Enabled(c, s, NextLabel(s));
    }
  }

  // ---- how a run can end --------------------------------------------------------------------

  /** Some run of the system is finished and stored with this status. */
  ghost predicate CanEndAs(c: Config, status: Status) {
    exists t :: Reaches(c, Init(), t) && t.pc.Finished? && t.row.status == status
  }

  lemma NextKeepsVerdict(c: Config, s: State)
    requires Inv(c, s) && Decided(s.pc) && !s.pc.Finished?
    ensures Enabled(c, s, NextLabel(s))
    ensures Decided(Step(c, s, NextLabel(s)).pc) && Step(c, s, NextLabel(s)).terminal == s.terminal
  {
    NextIsCloser(c, s);
    if NextLabel(s).Commit? { CommitKeepsDense(s.row, s.begun.value); }
  }

  /** Once there is a verdict, the run can be brought to its end with it. */
  lemma {:induction false} Finishing(c: Config, s: State)
    requires !c.lateCancels && Inv(c, s) && Decided(s.pc) && Reaches(c, Init(), s)
    ensures CanEndAs(c, s.terminal.value)
    decreases Distance(s)
  {
    if !s.pc.Finished? {
      NextIsCloser(c, s);
      NextKeepsVerdict(c, s);
      StepKeeps(c, s, NextLabel(s));
      Then(c, Init(), s, NextLabel(s));
      Finishing(c, Step(c, s, NextLabel(s)));
    }
  }

  /** The supervisor can read any number of the worker's lines undisturbed. */
  lemma {:induction false} Reading(c: Config, n: nat) returns (s: State)
    requires Articulate(c) && !c.lateCancels && n <= |c.script|
    ensures Reaches(c, Init(), s) && Inv(c, s)
    ensures s.pc.Consuming? && s.consumed == n && s.begun.None? && !s.cancelRequested
    decreases n
  {
    InitInv(c);
    if n == 0 {
      var ls;
      ls, s := StartUp(c);
      ReachesKeeps(c, Init(), s);
      RunKeeps(c, Init(), ls);
      History(c, Init(), ls);
    } else {
      var before := Reading(c, n - 1);
      s := ReadLine(c, before);
    }
  }

  lemma ReadLine(c: Config, before: State) returns (s: State)
    requires !c.lateCancels && Reaches(c, Init(), before) && Inv(c, before)
    requires before.pc.Consuming? && before.consumed < |c.script| && before.begun.None? && !before.cancelRequested
    ensures Reaches(c, Init(), s) && Inv(c, s)
    ensures s.pc.Consuming? && s.consumed == before.consumed + 1 && s.begun.None? && !s.cancelRequested
  {
    Then(c, Init(), before, Consume);
    StepKeeps(c, before, Consume);
    s := Step(c, before, Consume);
    HandleFrame(before.(consumed := before.consumed + 1), c.script[before.consumed]);
    if s.pc.Emitting? {
      Then(c, Init(), s, Begin);
      StepKeeps(c, s, Begin);
      s := Step(c, s, Begin);
      CommitKeepsDense(s.row, s.begun.value);
      Then(c, Init(), s, Commit);
      StepKeeps(c, s, Commit);
      s := Step(c, s, Commit);
    }
  }

  lemma EndsAsHeard(c: Config, n: nat)
    requires Articulate(c) && !c.lateCancels && n <= |c.script| && Heard(c.script[..n]).Some?
    ensures CanEndAs(c, Heard(c.script[..n]).value)
  {
    var s := Reading(c, n);
    Then(c, Init(), s, Eof);
    StepKeeps(c, s, Eof);
    Finishing(c, Step(c, s, Eof));
  }

  lemma EndsAsFailed(c: Config)
    requires Articulate(c) && !c.lateCancels
    ensures CanEndAs(c, Failed)
  {
    var s := Reading(c, 0);
    Then(c, Init(), s, Crash);
    StepKeeps(c, s, Crash);
    Finishing(c, Step(c, s, Crash));
  }

  lemma EndsAsCancelled(c: Config)
    requires Articulate(c) && !c.lateCancels
    ensures CanEndAs(c, Cancelled)
  {
    var s := Reading(c, 0);
    Then(c, Init(), s, Cancel);
    StepKeeps(c, s, Cancel);
    var cancelled := Step(c, s, Cancel);
    Then(c, Init(), cancelled, Eof);
    StepKeeps(c, cancelled, Eof);
    Finishing(c, Step(c, cancelled, Eof));
  }

  lemma EndsAsTimedOut(c: Config)
    requires Articulate(c) && !c.lateCancels
    ensures CanEndAs(c, TimedOut)
  {
    var s := Reading(c, 0);
    Then(c, Init(), s, Timeout);
    StepKeeps(c, s, Timeout);
    s := Step(c, s, Timeout);
    Then(c, Init(), s, Begin);
    StepKeeps(c, s, Begin);
    s := Step(c, s, Begin);
    CommitKeepsDense(s.row, s.begun.value);
    Then(c, Init(), s, Commit);
    StepKeeps(c, s, Commit);
    Finishing(c, Step(c, s, Commit));
  }

  /** How the runs of a worker can end, exactly: any of them as failed, cancelled or timed out,
      and otherwise only as the last word of some part of what the worker writes says. */
  lemma OutcomesAreExact(c: Config, status: Status)
    requires Articulate(c) && !c.lateCancels
    ensures CanEndAs(c, status) <==>
            status in {Failed, Cancelled, TimedOut} || exists n :: 0 <= n <= |c.script| && Heard(c.script[..n]) == Some(status)
  {
    EndsAsFailed(c);
    EndsAsCancelled(c);
    EndsAsTimedOut(c);
    forall n | 0 <= n <= |c.script| && Heard(c.script[..n]) == Some(status) ensures CanEndAs(c, status) {
      EndsAsHeard(c, n);
    }
    if CanEndAs(c, status) {
      var t :| Reaches(c, Init(), t) && t.pc.Finished? && t.row.status == status;
      var ls :| Valid(c, Init(), ls) && After(c, Init(), ls) == t;
      StoredOutcome(c, ls);
      assert status !in {Failed, Cancelled, TimedOut} ==> Heard(c.script[..t.consumed]) == Some(status);
    }
  }
}
