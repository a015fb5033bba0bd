/**
 The shell tool under concurrency: any number of executions and cleanups, each a
 thread with a program counter, interleave at lock-region granularity
 (process.go). Start, Wait, RequestStop and ForceKill run outside the lock and
 answer as they like.

 A record is numbered by the Start call that produced its process, so two Start
 calls never share a record even if a launcher hands out the same process twice.
 */
module ShellProtocol {
  import opened Common
  import opened Ownership
  import opened Outcomes

  type Tid = nat
  type RecordId = nat

  /** Where a thread is inside waitOwned. */
  datatype Join =
    | Checking(record: RecordId)                    // about to read record.terminal under the lock
    | Waiting(record: RecordId)                     // Wait is in flight
    | Releasing(record: RecordId)                   // Wait succeeded, releaseOwned has not run
    | Caching(record: RecordId, error: Failure)     // Wait failed terminally, not stored yet
    | Ended(record: RecordId, result: WaitResult)   // waitOwned has returned

  datatype Report =
    | Unprepared
    | Ran(path: Path, result: WaitResult, record: Option<RecordId>)

  datatype Thread =
    // an execution
    | Entering
    | Refused(admission: Admission)
    | Preparing
    | Launched(record: RecordId, launchFailed: bool)   // Start has returned, retain has not run
    | Holding(record: RecordId, launchFailed: bool)
    | RunJoining(join: Join, path: Path)
    | Finishing(reserved: bool, report: Report)
    | Finished(report: Report)
    // a cleanup
    | Closing
    | Queued
    | Draining
    | Snapshotting
    | Looping(rest: seq<RecordId>, failed: bool)
    | CleanupJoining(join: Join, rest: seq<RecordId>, failed: bool)
    | Returning(ok: bool)
    | Cleaned(ok: bool)
  {
    /** Admitted and not finished. */
    predicate Active() {
      Preparing? || Launched? || Holding? || RunJoining? || Finishing?
    }

    predicate Reserving() {
      Preparing? || Launched? || (Finishing? && reserved)
    }

    predicate HoldsToken() {
      Draining? || Snapshotting? || Looping? || CleanupJoining? || Returning?
    }

    predicate PastDrain() {
      Snapshotting? || Looping? || CleanupJoining? || ((Returning? || Cleaned?) && ok)
    }

    function JoinOf(): Option<Join> {
      if RunJoining? || CleanupJoining? then Some(join) else None
    }

    /** The record an execution brought in. */
    function RunRecord(): Option<RecordId> {
      if Launched? || Holding? then Some(record)
      else if RunJoining? then Some(join.record)
      else if (Finishing? || Finished?) && report.Ran? then report.record
      else None
    }
  }

  datatype State = State(
    shell: Shell<RecordId>,
    terminal: map<RecordId, Failure>,   // record.terminal where it is set
    token: Option<Tid>,                 // the holder of the one cleanupToken
    threads: map<Tid, Thread>,
    // history
    started: set<RecordId>,             // every process Start ever returned
    retained: set<RecordId>,            // every record ever put into owned
    waits: map<RecordId, seq<WaitResult>>)   // the results of the Wait calls on a record, in order

  const INITIAL := State(Shell(false, 0, 0, [], false, 0), map[], None, map[], {}, {}, map[])

  function History(s: State, r: RecordId): seq<WaitResult> {
    if r in s.waits then s.waits[r] else []
  }

  datatype Action =
    | SpawnRun(t: Tid)
    | SpawnCleanup(t: Tid)
    | Admit(t: Tid)
    | FailPreparation(t: Tid)
    | ReturnUnstarted(t: Tid, path: Path)
    | StartReturns(t: Tid, record: RecordId, launchFailed: bool)
    | RetainProcess(t: Tid)
    | Control(t: Tid, path: Path)                  // stop or observe the process, up to its join
    | Advance(t: Tid, answer: WaitResult)          // one step inside waitOwned
    | LeaveJoin(t: Tid, contextEnded: bool)        // waitOwned returned to its caller
    | FinishRun(t: Tid)
    | CloseDoor(t: Tid)
    | TakeToken(t: Tid)
    | LeaveQueue(t: Tid)
    | PassDrain(t: Tid)
    | LeaveDrain(t: Tid)
    | TakeSnapshot(t: Tid)
    | NextRecord(t: Tid)
    | Return(t: Tid)

  predicate Enabled(s: State, a: Action) {
    if a.SpawnRun? || a.SpawnCleanup? then a.t !in s.threads
    else
      && a.t in s.threads
      && var th := s.threads[a.t];
         match a
         case SpawnRun(_) => false
         case SpawnCleanup(_) => false
         case Admit(_) => th.Entering?
         case FailPreparation(_) => th.Preparing?
         case ReturnUnstarted(_, path) => th.Preparing? && Possible(path) && !Starts(path)
         case StartReturns(_, record, _) => th.Preparing? && record !in s.started
         case RetainProcess(_) => th.Launched?
         case Control(_, path) =>
           th.Holding? && Possible(path) && (if th.launchFailed then path.PartialLaunch? else path.RanToEnd? || path.InterruptedRun?)
         case Advance(_, _) => th.JoinOf().Some? && !th.JoinOf().value.Ended?
         case LeaveJoin(_, _) => th.JoinOf().Some? && th.JoinOf().value.Ended?
         case FinishRun(_) => th.Finishing?
         case CloseDoor(_) => th.Closing?
         case TakeToken(_) => th.Queued? && s.token == None
         case LeaveQueue(_) => th.Queued?
         case PassDrain(_) => th.Draining? && s.shell.closes > 0
         case LeaveDrain(_) => th.Draining?
         case TakeSnapshot(_) => th.Snapshotting?
         case NextRecord(_) => th.Looping?
         case Return(_) => th.Returning?
  }

  function Move(s: State, t: Tid, th: Thread): State {
    s.(threads := s.threads[t := th])
  }

  /** One step of waitOwned: the state it leaves and where the caller then is. */
  function AdvanceJoin(s: State, j: Join, answer: WaitResult): (State, Join)
    requires !j.Ended?
  {
    match j
    case Checking(r) =>
      if r in s.terminal then (s, Ended(r, Failed(s.terminal[r]))) else (s, Waiting(r))
    case Waiting(r) =>
      var s1 := s.(waits := s.waits[r := History(s, r) + [answer]]);
      if answer == Joined then (s1, Releasing(r))
      else if IsTerminal(answer.error) then (s1, Caching(r, answer.error))
      else (s1, Ended(r, answer))
    case Releasing(r) => (s.(shell := Release(s.shell, r)), Ended(r, Joined))
    case Caching(r, error) =>
      var kept := if r in s.terminal then s.terminal[r] else error;
      (s.(terminal := s.terminal[r := kept]), Ended(r, Failed(kept)))
  }

  function WithJoin(th: Thread, j: Join): Thread
    requires th.JoinOf().Some?
  {
    if th.RunJoining? then RunJoining(j, th.path) else CleanupJoining(j, th.rest, th.failed)
  }

  /** What the caller of waitOwned does with its result: an execution reports, a cleanup retries, goes on or gives up. */
  function AfterWaitOwned(th: Thread, contextEnded: bool): Thread
    requires th.JoinOf().Some? && th.JoinOf().value.Ended?
  {
    var record, result := th.join.record, th.join.result;
    if th.RunJoining? then Finishing(false, Ran(th.path, result, Some(record)))
    else if contextEnded then Returning(false)
    else if IsRetryable(result) then CleanupJoining(Checking(record), th.rest, th.failed)
    else Looping(th.rest, th.failed || result.Failed?)
  }

  function Step(s: State, a: Action): State
    requires Enabled(s, a)
  {
    if a.SpawnRun? then Move(s, a.t, Entering)
    else if a.SpawnCleanup? then Move(s, a.t, Closing)
    else
      var th := s.threads[a.t];
      match a
      case Admit(t) =>
        var admission := Decide(s.shell);
        Move(s.(shell := Begin(s.shell)), t, if admission == Admitted then Preparing else Refused(admission))
      case FailPreparation(t) => Move(s, t, Finishing(true, Unprepared))
      case ReturnUnstarted(t, path) => Move(s, t, Finishing(true, Ran(path, Joined, None)))
      case StartReturns(t, record, launchFailed) =>
        Move(s.(started := s.started + {record}), t, Launched(record, launchFailed))
      case RetainProcess(t) =>
        Move(s.(shell := Retain(s.shell, true, th.record), retained := s.retained + {th.record}),
             t, Holding(th.record, th.launchFailed))
      case Control(t, path) => Move(s, t, RunJoining(Checking(th.record), path))
      case Advance(t, answer) =>
        var (s1, j) := AdvanceJoin(s, th.join, answer);
        Move(s1, t, WithJoin(th, j))
      case LeaveJoin(t, contextEnded) => Move(s, t, AfterWaitOwned(th, contextEnded))
      case FinishRun(t) => Move(s.(shell := Finish(s.shell, th.reserved)), t, Finished(th.report))
      case CloseDoor(t) => Move(s.(shell := CloseAdmission(s.shell)), t, Queued)
      case TakeToken(t) => Move(s.(token := Some(t)), t, Draining)
      case LeaveQueue(t) => Move(s, t, Cleaned(false))
      case PassDrain(t) => Move(s, t, Snapshotting)
      case LeaveDrain(t) => Move(s, t, Returning(false))
      case TakeSnapshot(t) => Move(s, t, Looping(s.shell.owned, false))
      case NextRecord(t) =>
        if th.rest == [] then Move(s, t, Returning(!th.failed))
        else Move(s, t, CleanupJoining(Checking(th.rest[0]), th.rest[1..], th.failed))
      case Return(t) => Move(s.(token := None), t, Cleaned(th.ok))
  }

  /** A run is a sequence of actions, each enabled where it is taken. */
  predicate IsRun(s: State, run: seq<Action>)
    decreases |run|
  {
    run == [] || (Enabled(s, run[0]) && IsRun(Step(s, run[0]), run[1..]))
  }

  function After(s: State, run: seq<Action>): State
    requires IsRun(s, run)
    decreases |run|
  {
    if run == [] then s else After(Step(s, run[0]), run[1..])
  }
}
