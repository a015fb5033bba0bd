/**
 What one shell run reports: the outcome record that runProcess assembles
 (process.go) and the decision shell.go takes on it.
 */
module Outcomes {
  import opened Common
  import opened Ownership

  /** What a context's Err method answers. */
  datatype ContextError = Live | Canceled | DeadlineExceeded

  datatype Exit = Exited(code: int) | Signaled | Unknown

  predicate Successful(exit: Exit) {
    exit == Exited(0)
  }

  /** What Result and Validate answer once the process is done. */
  datatype Observation = Observed(exit: Exit) | Unobservable

  datatype Outcome = Outcome(
    result: Option<Exit>,
    resultErr: bool,
    launchErr: bool,
    contextErr: ContextError,
    controlErr: bool,
    waitErr: Option<Failure>,
    timedOut: bool,
    started: bool)

  const EMPTY_OUTCOME := Outcome(None, false, false, Live, false, None, false, false)

  /** parent is the caller's context, process the one derived from it with the command timeout. */
  function Interrupted(parent: ContextError, process: ContextError, started: bool): Outcome {
    var outcome := EMPTY_OUTCOME.(started := started);
    if parent != Live then outcome.(contextErr := parent)
    else if process == DeadlineExceeded then outcome.(timedOut := true)
    else outcome.(contextErr := process)
  }

  function WithObservation(outcome: Outcome, seen: Observation): Outcome {
    match seen
    case Observed(exit) => outcome.(result := Some(exit))
    case Unobservable => outcome.(resultErr := true)
  }

  /** The answers to RequestStop and, if the grace period ran out, ForceKill; then to Result if the process is done. */
  datatype StopAnswers = StopAnswers(stopFailed: bool, killFailed: Option<bool>, seen: Option<Observation>)

  /** stopAndJoin up to its join. */
  function Stopped(outcome: Outcome, answers: StopAnswers): Outcome {
    var stopErr := answers.stopFailed || answers.killFailed == Some(true);
    var controlled := outcome.(controlErr := stopErr);
    if answers.seen.Some? then WithObservation(controlled, answers.seen.value) else controlled
  }

  /** observeAndJoin up to its join. */
  function Completed(seen: Observation): Outcome {
    WithObservation(EMPTY_OUTCOME.(started := true), seen)
  }

  function AfterJoin(outcome: Outcome, result: WaitResult): Outcome {
    if result.Failed? then outcome.(waitErr := Some(result.error)) else outcome
  }

  /** The environment's answers along each path of runProcess up to the join. */
  datatype Path =
    | EndedBeforeLaunch(parent: ContextError, process: ContextError)
    | NoProcess(parent: ContextError, process: ContextError)
    | PartialLaunch(parent: ContextError, process: ContextError, stop: StopAnswers)
    | RanToEnd(seen: Observation)
    | InterruptedRun(parent: ContextError, process: ContextError, stop: StopAnswers)

  predicate Possible(path: Path) {
    (path.EndedBeforeLaunch? || path.InterruptedRun?) ==> path.process != Live
  }

  predicate Starts(path: Path) {
    path.PartialLaunch? || path.RanToEnd? || path.InterruptedRun?
  }

  function BeforeJoin(path: Path): Outcome {
    match path
    case EndedBeforeLaunch(parent, process) => Interrupted(parent, process, false)
    case NoProcess(parent, process) => Interrupted(parent, process, false).(launchErr := true)
    case PartialLaunch(parent, process, stop) => Stopped(Interrupted(parent, process, true).(launchErr := true), stop)
    case RanToEnd(seen) => Completed(seen)
    case InterruptedRun(parent, process, stop) => Stopped(Interrupted(parent, process, true), stop)
  }

  /** runProcess: a started process is always joined, any other path returns at once. */
  function RunProcess(path: Path, join: WaitResult): Outcome {
    if Starts(path) then AfterJoin(BeforeJoin(path), join) else BeforeJoin(path)
  }

  datatype Problem = CommandTimedOut | NotStarted | BadExit(exit: Exit)

  datatype ExecutionState = Definitive | Uncertain

  /** Which branch of the classifier produced an error. */
  datatype Reason =
    | Interruption | TimeoutUnjoined | LaunchUnclear | ResultUnseen | OwnershipHeld | ControlUnclear | NothingSeen

  datatype Verdict =
    | Clean
    | Reported(problem: Problem)
    | Error(state: ExecutionState, reason: Reason, preserveContext: bool)

  function InterruptionState(outcome: Outcome): ExecutionState {
    if outcome.started then Uncertain else Definitive
  }

  function Classify(outcome: Outcome): Verdict {
    var joined := !outcome.started || outcome.waitErr.None?;
    if outcome.contextErr != Live then Error(InterruptionState(outcome), Interruption, true)
    else if outcome.timedOut then
      if !joined then Error(Uncertain, TimeoutUnjoined, false) else Reported(CommandTimedOut)
    else if outcome.launchErr then
      if outcome.started then Error(Uncertain, LaunchUnclear, false) else Reported(NotStarted)
    else if outcome.resultErr then Error(Uncertain, ResultUnseen, false)
    else if !joined then Error(Uncertain, OwnershipHeld, false)
    else if outcome.controlErr then Error(Uncertain, ControlUnclear, false)
    else if outcome.result.None? then Error(Uncertain, NothingSeen, false)
    else if !Successful(outcome.result.value) then Reported(BadExit(outcome.result.value))
    else Clean
  }

  predicate Visible(verdict: Verdict) {
    !verdict.Error?
  }

  /** The `ok` flag put into the captured content before classification. */
  predicate CapturedOk(outcome: Outcome) {
    && outcome.result.Some? && Successful(outcome.result.value)
    && !outcome.resultErr && !outcome.launchErr && outcome.contextErr == Live
    && !outcome.timedOut && !outcome.controlErr && outcome.waitErr.None?
  }

  predicate CleanupCompleted(outcome: Outcome) {
    outcome.started && outcome.waitErr.None?
  }

  /**
   The two decisions agree on an arbitrary record exactly when it is not this one:
   nothing was started, the result is status 0, no other error is set, and yet a
   wait error is.
   */
  lemma OkAgreesExactly(outcome: Outcome)
    ensures (CapturedOk(outcome) <==> Classify(outcome) == Clean)
            <==> outcome != EMPTY_OUTCOME.(result := Some(Exited(0)), waitErr := outcome.waitErr) || outcome.waitErr.None?
  {
  }

  /** The record the two decisions disagree on is one that no run assembles. */
  lemma RunsCarryNoStrayWaitError(path: Path, join: WaitResult)
    requires Possible(path)
    ensures RunProcess(path, join).started == Starts(path)
    ensures RunProcess(path, join).waitErr.Some? <==> Starts(path) && join.Failed?
  {
  }

  /** Over every outcome runProcess can build: ok means clean, errors say whether the process started, and two branches are dead. */
  lemma RunClassification(path: Path, join: WaitResult)
    requires Possible(path)
    ensures var outcome := RunProcess(path, join);
            var verdict := Classify(outcome);
            && (CapturedOk(outcome) <==> verdict == Clean)
            && (verdict.Error? ==> (verdict.state == Uncertain <==> Starts(path)))
            && (verdict.Error? ==> verdict.reason != ControlUnclear && verdict.reason != NothingSeen)
            && (verdict.Error? && verdict.preserveContext <==> outcome.contextErr != Live)
  {
  }

  /** A run whose result reaches the model started nothing, or its join succeeded; then cleanup is reported exactly when it started. */
  lemma VisibleMeansJoined(path: Path, join: WaitResult)
    requires Possible(path)
    requires Visible(Classify(RunProcess(path, join)))
    ensures Starts(path) ==> join == Joined
    ensures CleanupCompleted(RunProcess(path, join)) <==> Starts(path)
  {
  }

  /** A started process that is not joined never yields a visible result, and the error is uncertain. */
  lemma UnjoinedIsUncertain(path: Path, join: WaitResult)
    requires Possible(path) && Starts(path) && join.Failed?
    ensures var verdict := Classify(RunProcess(path, join));
            verdict.Error? && verdict.state == Uncertain
  {
  }

  /** Whether a path asked its two contexts, and what they answered together. */
  predicate CallerInterrupted(path: Path) {
    !path.RanToEnd? && (path.parent != Live || path.process == Canceled)
  }

  predicate CommandDeadline(path: Path) {
    !path.RanToEnd? && path.parent == Live && path.process == DeadlineExceeded
  }

  /**
   What the model sees, told from what happened: success exactly for a run that
   ended by itself with status 0 and was joined; a timeout exactly when only the
   command's own deadline passed and a started process was joined; "not started"
   exactly when nothing was launched in time; an interruption by the caller always
   reaches the host with its cause.
   */
  lemma VerdictByPath(path: Path, join: WaitResult)
    requires Possible(path)
    ensures var verdict := Classify(RunProcess(path, join));
            && (verdict == Clean <==> path == RanToEnd(Observed(Exited(0))) && join == Joined)
            && (verdict == Reported(CommandTimedOut) <==> CommandDeadline(path) && (Starts(path) ==> join == Joined))
            && (verdict == Reported(NotStarted) <==> path == NoProcess(Live, Live))
            && (verdict.Error? && verdict.preserveContext <==> CallerInterrupted(path))
            && (verdict.Reported? && verdict.problem.BadExit? <==>
                  path.RanToEnd? && path.seen.Observed? && path.seen.exit != Exited(0) && join == Joined)
            && (forall exit :: verdict == Reported(BadExit(exit)) <==>
                  path == RanToEnd(Observed(exit)) && exit != Exited(0) && join == Joined)
  {
  }

  predicate FailsFor(verdict: Verdict, reason: Reason) {
    verdict.Error? && verdict.reason == reason
  }

  /** Why the host is told of an error, from what happened, and which context's end it is told of. */
  lemma ErrorByPath(path: Path, join: WaitResult)
    requires Possible(path)
    ensures var outcome := RunProcess(path, join);
            var verdict := Classify(outcome);
            && (FailsFor(verdict, Interruption) <==> CallerInterrupted(path))
            && (FailsFor(verdict, TimeoutUnjoined) <==> CommandDeadline(path) && Starts(path) && join.Failed?)
            && (FailsFor(verdict, LaunchUnclear) <==> path.PartialLaunch? && path.parent == Live && path.process == Live)
            && (FailsFor(verdict, ResultUnseen) <==> path == RanToEnd(Unobservable))
            && (FailsFor(verdict, OwnershipHeld) <==> path.RanToEnd? && path.seen.Observed? && join.Failed?)
            && (CallerInterrupted(path) ==> outcome.contextErr == if path.parent != Live then path.parent else Canceled)
            && (outcome.timedOut <==> CommandDeadline(path))
  {
  }

  /** What the run observed of its process, if it came to that. */
  function SeenBy(path: Path): Option<Observation> {
    match path
    case EndedBeforeLaunch(_, _) => None
    case NoProcess(_, _) => None
    case PartialLaunch(_, _, stop) => stop.seen
    case RanToEnd(seen) => Some(seen)
    case InterruptedRun(_, _, stop) => stop.seen
  }

  /** The failed control calls of a run that stops its process. */
  predicate StopFails(path: Path) {
    (path.PartialLaunch? || path.InterruptedRun?) && (path.stop.stopFailed || path.stop.killFailed == Some(true))
  }

  /** What the outcome record carries, field by field, from what happened. */
  lemma FieldsByPath(path: Path, join: WaitResult)
    ensures var outcome := RunProcess(path, join);
            && (outcome.launchErr <==> path.NoProcess? || path.PartialLaunch?)
            && (outcome.controlErr <==> StopFails(path))
            && (outcome.resultErr <==> SeenBy(path) == Some(Unobservable))
            && (forall exit :: outcome.result == Some(exit) <==> SeenBy(path) == Some(Observed(exit)))
            && outcome.waitErr == (if Starts(path) && join.Failed? then Some(join.error) else None)
  {
    match SeenBy(path)
    case None =>
    case Some(_) =>
  }
}
