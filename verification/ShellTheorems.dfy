/** The shell tool's promises, over every run from construction. */
module ShellTheorems {
  import opened Common
  import opened Ownership
  import opened Outcomes
  import opened ShellProtocol
  import opened ShellInvariant
  import opened ShellHistories

  ghost predicate Reachable(s: State) {
    exists run :: IsRun(INITIAL, run) && After(INITIAL, run) == s
  }

  lemma ReachableInv(s: State)
    requires Reachable(s)
    ensures Inv(s)
  {
    var run :| IsRun(INITIAL, run) && After(INITIAL, run) == s;
    InitialInv();
    RunKeepsInv(INITIAL, run);
  }

  // ---- cleanup success is permanent quiescence ----

  ghost predicate Quiet(s: State) {
    s.shell.closing && s.shell.active == 0 && s.shell.reservations == 0 && s.shell.owned == []
  }

  lemma NoReservationWithoutLease(s: State)
    requires Counted(s) && s.shell.active == 0
    ensures s.shell.reservations == 0
  {
    assert Reservers(s.threads) <= Actives(s.threads);
    assert Actives(s.threads) == {};
  }

  /** A quiet step admits nothing, starts nothing, owns nothing and calls no Wait. */
  ghost predicate QuietStep(s: State, a: Action)
    requires Enabled(s, a)
  {
    && (a.Admit? ==> Step(s, a).threads[a.t] == Refused(ShellClosing))
    && !a.StartReturns? && !a.RetainProcess?
    && !(a.Advance? && s.threads[a.t].join.Checking?)
    && !(a.Advance? && s.threads[a.t].join.Waiting?)
  }

  lemma QuietStaysQuiet(s: State, a: Action)
    requires Inv(s) && Quiet(s) && Enabled(s, a)
    ensures QuietStep(s, a) && Quiet(Step(s, a))
    ensures Step(s, a).started == s.started && Step(s, a).waits == s.waits
  {
    if a.t in s.threads {
      var th := s.threads[a.t];
      assert ThreadOk(s, th);
      if th.Active() {
        ActiveMember(s, a.t);
      }
    }
  }

  ghost predicate QuietRun(s: State, run: seq<Action>)
    requires IsRun(s, run)
    decreases |run|
  {
    run == [] || (QuietStep(s, run[0]) && QuietRun(Step(s, run[0]), run[1..]))
  }

  lemma {:induction false} QuietForever(s: State, run: seq<Action>)
    requires Inv(s) && Quiet(s) && IsRun(s, run)
    ensures QuietRun(s, run) && Quiet(After(s, run))
    ensures After(s, run).started == s.started && After(s, run).waits == s.waits
    decreases |run|
  {
    if run != [] {
      QuietStaysQuiet(s, run[0]);
      StepKeepsInv(s, run[0]);
      QuietForever(Step(s, run[0]), run[1..]);
    }
  }

  /**
   When a cleanup is about to return nil, or has, nothing is owned, active or
   reserved, and that holds for ever: whatever runs next admits, starts and owns
   nothing and calls no Wait.
   */
  lemma CleanupSuccessIsFinal(s: State, t: Tid, run: seq<Action>)
    requires Reachable(s) && IsRun(s, run)
    requires t in s.threads && (s.threads[t] == Returning(true) || s.threads[t] == Cleaned(true))
    ensures Quiet(s)
    ensures QuietRun(s, run) && Quiet(After(s, run))
    ensures After(s, run).started == s.started && After(s, run).waits == s.waits
  {
    ReachableInv(s);
    assert ThreadOk(s, s.threads[t]);
    NoReservationWithoutLease(s);
    QuietForever(s, run);
  }

  /** A cleanup that gets through all its records reports success if and only if nothing is owned any more. */
  lemma CleanupSucceedsExactly(s: State, a: Action)
    requires Reachable(s) && Enabled(s, a) && a.NextRecord? && s.threads[a.t].rest == []
    ensures Step(s, a).threads[a.t] == Returning(s.shell.owned == [])
  {
    ReachableInv(s);
    assert ThreadOk(s, s.threads[a.t]);
    NextRecordOk(s, s.threads[a.t]);
  }

  /** Admission is refused only for a closed tool or a full one. */
  lemma RefusedOnlyWhenClosedOrFull(s: State, a: Action)
    requires Reachable(s) && Enabled(s, a) && a.Admit?
    ensures Step(s, a).threads[a.t] == Refused(ShellClosing) <==> s.shell.closing
    ensures Step(s, a).threads[a.t] == Refused(ProcessLimit)
            <==> !s.shell.closing && |s.shell.owned| + |Reservers(s.threads)| == 128
  {
    ReachableInv(s);
  }

  // ---- no join is replayed ----

  /** Retryable failures, then at most one success or terminal failure. */
  ghost predicate Lawful(h: seq<WaitResult>) {
    Retryables(h) || EndsIn(h, h[|h| - 1])
  }

  ghost predicate Decided(h: seq<WaitResult>) {
    h != [] && !IsRetryable(h[|h| - 1])
  }

  /** A record is settled, or still owned while the outcome of its last join is being recorded. */
  lemma RecordStatus(s: State, r: RecordId)
    requires HistoriesOk(s)
    ensures r in s.retained ==>
              Settled(s, r) || (r in s.shell.owned && r !in s.terminal && EndsIn(History(s, r), History(s, r)[|History(s, r)| - 1]))
    ensures r !in s.retained ==> r !in s.terminal && History(s, r) == []
  {
    if r in s.retained && !Settled(s, r) {
      var t :| t in s.threads && Transit(s.threads[t], r);
      assert ThreadOk(s, s.threads[t]);
    }
  }

  lemma HistoryIsLawful(s: State, r: RecordId)
    requires Reachable(s)
    ensures Lawful(History(s, r))
    ensures r !in s.retained ==> History(s, r) == []
  {
    ReachableInv(s);
    RecordStatus(s, r);
  }

  predicate InWait(s: State, t: Tid, r: RecordId) {
    t in s.threads && s.threads[t].JoinOf() == Some(Waiting(r))
  }

  lemma OneWaitInFlight(s: State, t: Tid, u: Tid, r: RecordId)
    requires Reachable(s) && InWait(s, t, r) && InWait(s, u, r)
    ensures t == u
  {
    ReachableInv(s);
    if t != u {
      OthersSilent(s, t, u);
      assert false;
    }
  }

  /** While a Wait is in flight the record is undecided. */
  lemma AwaitedIsUndecided(s: State, t: Tid, r: RecordId)
    requires HistoriesOk(s) && InWait(s, t, r)
    ensures Retryables(History(s, r))
  {
    assert ThreadOk(s, s.threads[t]);
    assert JoinOk(s, Waiting(r));
  }

  /** Only a Wait that returns extends a history. */
  lemma HistoryFollowsWait(s: State, a: Action, r: RecordId)
    requires Enabled(s, a) && !InWait(s, a.t, r)
    ensures History(Step(s, a), r) == History(s, r)
  {
  }

  lemma DecidedStep(s: State, a: Action, r: RecordId)
    requires HistoriesOk(s) && Enabled(s, a) && Decided(History(s, r))
    ensures History(Step(s, a), r) == History(s, r)
  {
    if InWait(s, a.t, r) {
      AwaitedIsUndecided(s, a.t, r);
    } else {
      HistoryFollowsWait(s, a, r);
    }
  }

  lemma {:induction false} DecidedForever(s: State, run: seq<Action>, r: RecordId)
    requires Inv(s) && IsRun(s, run) && Decided(History(s, r))
    ensures History(After(s, run), r) == History(s, r)
    decreases |run|
  {
    if run != [] {
      var s' := Step(s, run[0]);
      assert History(s', r) == History(s, r) by { DecidedStep(s, run[0], r); }
      assert Inv(s') by { StepKeepsInv(s, run[0]); }
      DecidedForever(s', run[1..], r);
    }
  }

  /** After a success or terminal failure no execution and no cleanup ever calls Wait on the record again. */
  lemma JoinIsNeverReplayed(s: State, run: seq<Action>, r: RecordId, t: Tid)
    requires Reachable(s) && IsRun(s, run) && Decided(History(s, r))
    ensures History(After(s, run), r) == History(s, r)
    ensures !InWait(After(s, run), t, r)
  {
    ReachableInv(s);
    DecidedForever(s, run, r);
    RunKeepsInv(s, run);
    if InWait(After(s, run), t, r) {
      AwaitedIsUndecided(After(s, run), t, r);
    }
  }

  lemma {:induction false} TerminalFailureIsKept(s: State, run: seq<Action>, r: RecordId)
    requires IsRun(s, run) && r in s.terminal
    ensures r in After(s, run).terminal && After(s, run).terminal[r] == s.terminal[r]
    decreases |run|
  {
    if run != [] {
      TerminalFailureIsKept(Step(s, run[0]), run[1..], r);
    }
  }

  /** The cached failure is the very answer Wait gave. */
  lemma CachedFailureIsTheAnswer(s: State, r: RecordId)
    requires Reachable(s) && r in s.terminal
    ensures IsTerminal(s.terminal[r]) && EndsIn(History(s, r), Failed(s.terminal[r]))
  {
    ReachableInv(s);
    RecordStatus(s, r);
  }

  /** The last answer is an error that says "not retryable", or panics when asked. */
  predicate RefusesRetry(h: seq<WaitResult>) {
    h != [] && match h[|h| - 1]
               case Joined => false
               case Failed(Unclassified(_)) => false
               case Failed(Classified(_, answer)) => answer == No || answer == Panics
  }

  /** Some thread has received such an answer and is about to store it. */
  ghost predicate Storing(s: State, r: RecordId) {
    exists t :: t in s.threads && s.threads[t].JoinOf().Some? && s.threads[t].join.Caching? && s.threads[t].join.record == r
  }

  lemma StoringRefuses(s: State, r: RecordId)
    requires HistoriesOk(s) && Storing(s, r)
    ensures r !in s.terminal && r in s.shell.owned && RefusesRetry(History(s, r))
  {
    var t :| t in s.threads && s.threads[t].JoinOf().Some? && s.threads[t].join.Caching? && s.threads[t].join.record == r;
    assert ThreadOk(s, s.threads[t]);
    assert JoinOk(s, s.threads[t].join);
  }

  /** A record at rest: cached exactly if its last answer refuses a retry, and gone only after a success. */
  lemma AtRest(s: State, r: RecordId)
    requires Settled(s, r)
    ensures r in s.terminal <==> RefusesRetry(History(s, r))
    ensures History(s, r) != [] && History(s, r)[|History(s, r)| - 1] != Joined ==> r in s.shell.owned
  {
  }

  lemma InTransitRefuses(s: State, r: RecordId)
    requires HistoriesOk(s) && !Settled(s, r) && InTransit(s, r)
    ensures r in s.shell.owned && r !in s.terminal
    ensures Storing(s, r) <==> RefusesRetry(History(s, r))
  {
    var t :| t in s.threads && Transit(s.threads[t], r);
    assert ThreadOk(s, s.threads[t]);
    assert JoinOk(s, s.threads[t].join);
    if Storing(s, r) {
      StoringRefuses(s, r);
    }
  }

  /**
   A failure is cached exactly for the records whose last Wait answered with an error
   that refuses a retry, once the thread that got it has stored it; a record whose
   last answer failed in any other way is still owned, with nothing cached.
   */
  lemma CachedExactlyWhenRefused(s: State, r: RecordId)
    requires Reachable(s)
    ensures r in s.terminal || Storing(s, r) <==> RefusesRetry(History(s, r))
    ensures r in s.terminal ==> !Storing(s, r)
    ensures var h := History(s, r);
            h != [] && h[|h| - 1] != Joined ==> r in s.shell.owned && (!RefusesRetry(h) ==> r !in s.terminal)
  {
    ReachableInv(s);
    if Storing(s, r) {
      StoringRefuses(s, r);
    }
    if r !in s.retained {
      RecordStatus(s, r);
    } else if Settled(s, r) {
      AtRest(s, r);
    } else {
      InTransitRefuses(s, r);
    }
  }

  // ---- conservation and budget ----

  /** Everything ever retained is owned, or was released after a successful join; never both. */
  lemma OwnershipIsConserved(s: State, r: RecordId)
    requires Reachable(s)
    ensures Distinct(s.shell.owned)
    ensures r in s.shell.owned ==> r in s.retained
    ensures r in s.retained && r !in s.shell.owned ==> EndsIn(History(s, r), Joined)
  {
    ReachableInv(s);
    RecordStatus(s, r);
    assert r in s.shell.owned ==> r in Elements(s.shell.owned);
  }

  /** Started and not yet successfully joined. */
  ghost function LiveProcesses(s: State): set<RecordId> {
    set r | r in s.started && Joined !in History(s, r)
  }

  ghost function Keepers(threads: map<Tid, Thread>): set<Tid> {
    set t | t in threads && threads[t].Launched?
  }

  lemma {:induction false} PendingBound(threads: map<Tid, Thread>)
    ensures |Pending(threads)| <= |Keepers(threads)|
    decreases |Keepers(threads)|
  {
    if Keepers(threads) == {} {
      assert forall t :: t in threads && threads[t].Launched? ==> t in Keepers(threads);
      assert Pending(threads) == {};
    } else {
      var t :| t in Keepers(threads);
      var fewer := map u | u in threads && u != t :: threads[u];
      assert Keepers(fewer) == Keepers(threads) - {t};
      PendingBound(fewer);
      var r := threads[t].record;
      forall x | x in Pending(threads) ensures x in Pending(fewer) + {r} {
        var u :| u in threads && threads[u].Launched? && threads[u].record == x;
        if u != t {
          assert fewer[u] == threads[u];
        }
      }
      SubsetSize(Pending(threads), Pending(fewer) + {r});
    }
  }

  lemma {:induction false} SubsetSize<T>(a: set<T>, b: set<T>)
    requires a <= b
    ensures |a| <= |b|
  {
    if a != {} {
      var x :| x in a;
      SubsetSize(a - {x}, b - {x});
    }
  }

  lemma LiveIsHeld(s: State)
    requires Reachable(s)
    ensures LiveProcesses(s) <= Elements(s.shell.owned) + Pending(s.threads)
  {
    ReachableInv(s);
    forall r | r in LiveProcesses(s) ensures r in Elements(s.shell.owned) + Pending(s.threads) {
      OwnershipIsConserved(s, r);
    }
  }

  /** Processes returned by Start and not yet joined never exceed the limit, not even between Start and retain. */
  lemma LiveProcessesAreBounded(s: State)
    requires Reachable(s)
    ensures |LiveProcesses(s)| <= 128
    ensures |s.shell.owned| + s.shell.reservations <= 128
    ensures s.shell.active == |Actives(s.threads)| && s.shell.reservations == |Reservers(s.threads)|
  {
    ReachableInv(s);
    LiveIsHeld(s);
    SubsetSize(LiveProcesses(s), Elements(s.shell.owned) + Pending(s.threads));
    DistinctSize(s.shell.owned);
    PendingBound(s.threads);
    SubsetSize(Keepers(s.threads), Reservers(s.threads));
  }

  // ---- results ----

  predicate HasReport(th: Thread) {
    (th.Finishing? || th.Finished?) && th.report.Ran?
  }

  /**
   A result shown to the model belongs to a run that started nothing or whose
   record has left owned after a successful join; any other started run ends in
   an uncertain error.
   */
  lemma VisibleResultOwnsNothing(s: State, t: Tid)
    requires Reachable(s) && t in s.threads && HasReport(s.threads[t])
    ensures var report := s.threads[t].report;
            var verdict := Classify(RunProcess(report.path, report.result));
            && (Starts(report.path) <==> report.record.Some?)
            && (Visible(verdict) && report.record.Some? ==> Gone(s, report.record.value))
            && (report.record.Some? && report.record.value in s.shell.owned ==>
                  verdict.Error? && verdict.state == Uncertain)
  {
    ReachableInv(s);
    var report := s.threads[t].report;
    assert ThreadOk(s, s.threads[t]);
    if Starts(report.path) {
      if report.result == Joined {
        assert Gone(s, report.record.value);
      } else {
        UnjoinedIsUncertain(report.path, report.result);
      }
    }
  }

  // ---- the drain latch and progress ----

  /** drained is closed exactly when admission is closed and nothing is active; it is closed at most once. */
  lemma DrainedExactlyWhenIdle(s: State)
    requires Reachable(s)
    ensures s.shell.closes <= 1
    ensures s.shell.closes == 1 <==> s.shell.closing && Actives(s.threads) == {}
  {
    ReachableInv(s);
  }

  lemma DrainedStaysClosed(s: State, run: seq<Action>)
    requires Reachable(s) && IsRun(s, run) && s.shell.closes == 1
    ensures After(s, run).shell.closes == 1
  {
    ReachableInv(s);
    DrainedRun(s, run);
  }

  lemma DrainedStep(s: State, a: Action)
    requires Counted(s) && Latched(s) && Enabled(s, a) && s.shell.closes == 1
    ensures Step(s, a).shell.closes == 1
  {
    if a.FinishRun? {
      ActiveMember(s, a.t);
    }
  }

  lemma {:induction false} DrainedRun(s: State, run: seq<Action>)
    requires Inv(s) && IsRun(s, run) && s.shell.closes == 1
    ensures After(s, run).shell.closes == 1
    decreases |run|
  {
    if run != [] {
      assert Step(s, run[0]).shell.closes == 1 by { DrainedStep(s, run[0]); }
      assert Inv(Step(s, run[0])) by { StepKeepsInv(s, run[0]); }
      DrainedRun(Step(s, run[0]), run[1..]);
    }
  }

  predicate Over(th: Thread) {
    th.Refused? || th.Finished? || th.Cleaned?
  }

  predicate Blockable(th: Thread) {
    th.Queued? || th.Draining?
  }

  /** A step that makes progress without any context ending. */
  predicate Willing(a: Action) {
    !a.SpawnRun? && !a.SpawnCleanup? && !a.LeaveQueue? && !a.LeaveDrain? && (a.LeaveJoin? ==> !a.contextEnded)
  }

  /** What a thread that waits for nothing but its own calls does next. */
  function NextOf(s: State, t: Tid): (a: Action)
    requires t in s.threads && !Over(s.threads[t]) && !Blockable(s.threads[t])
    ensures Enabled(s, a) && Willing(a) && a.t == t
  {
    var th := s.threads[t];
    match th
    case Entering => Admit(t)
    case Preparing => FailPreparation(t)
    case Launched(_, _) => RetainProcess(t)
    case Holding(_, launchFailed) =>
      Control(t, if launchFailed then PartialLaunch(Live, Live, StopAnswers(false, None, None)) else RanToEnd(Unobservable))
    case RunJoining(j, _) => if j.Ended? then LeaveJoin(t, false) else Advance(t, Joined)
    case Finishing(_, _) => FinishRun(t)
    case Closing => CloseDoor(t)
    case Snapshotting => TakeSnapshot(t)
    case Looping(_, _) => NextRecord(t)
    case CleanupJoining(j, _, _) => if j.Ended? then LeaveJoin(t, false) else Advance(t, Joined)
    case Returning(_) => Return(t)
  }

  /** A cleanup waits only for others that can move: no reachable state with an unfinished thread is stuck. */
  lemma NeverStuck(s: State, t: Tid) returns (a: Action)
    requires Reachable(s) && t in s.threads && !Over(s.threads[t])
    ensures Enabled(s, a) && Willing(a)
  {
    ReachableInv(s);
    if !Blockable(s.threads[t]) {
      a := NextOf(s, t);
    } else if s.threads[t].Queued? && s.token == None {
      a := TakeToken(t);
    } else {
      // The token holder is this thread or the one it waits for.
      var holder := s.token.value;
      if !s.threads[holder].Draining? {
        a := NextOf(s, holder);
      } else if Actives(s.threads) == {} {
        a := PassDrain(holder);
      } else {
        var u :| u in Actives(s.threads);
        a := NextOf(s, u);
      }
    }
  }

  // ---- a cleanup past its snapshot ends ----

  function JoinWork(j: Join): nat {
    match j
    case Checking(_) => 5
    case Waiting(_) => 4
    case Releasing(_) => 3
    case Caching(_, _) => 3
    case Ended(_, _) => 1
  }

  function Work(th: Thread): nat {
    match th
    case Looping(rest, _) => 6 * |rest| + 2
    case CleanupJoining(j, rest, _) => 6 * |rest| + 2 + JoinWork(j)
    case Returning(_) => 1
    case _ => 0
  }

  predicate PastSnapshot(th: Thread) {
    th.Looping? || th.CleanupJoining? || th.Returning? || th.Cleaned?
  }

  function StepsOf(t: Tid, run: seq<Action>): nat {
    if run == [] then 0 else (if run[0].t == t then 1 else 0) + StepsOf(t, run[1..])
  }

  /** How often Wait failed retryably for this thread along the run. */
  function Retries(t: Tid, run: seq<Action>): nat {
    if run == [] then 0
    else (if run[0].t == t && run[0].Advance? && IsRetryable(run[0].answer) then 1 else 0) + Retries(t, run[1..])
  }

  predicate FreshChecks(th: Thread) {
    th.CleanupJoining? && th.join.Ended? ==> !IsRetryable(th.join.result)
  }

  /** The work left, where a join that has just failed retryably is charged its retry in advance. */
  function Debt(th: Thread): nat {
    Work(th) + (if FreshChecks(th) then 0 else 5)
  }

  lemma CleanupStepWorks(s: State, a: Action)
    requires HistoriesOk(s) && Enabled(s, a) && a.t in s.threads && PastSnapshot(s.threads[a.t])
    ensures PastSnapshot(Step(s, a).threads[a.t])
    ensures Debt(Step(s, a).threads[a.t]) + 1 <= Debt(s.threads[a.t])
              + (if a.Advance? && IsRetryable(a.answer) then 5 else 0)
  {
    assert ThreadOk(s, s.threads[a.t]);
  }

  lemma OtherThreadsStay(s: State, a: Action, t: Tid)
    requires Enabled(s, a) && t in s.threads && t != a.t
    ensures t in Step(s, a).threads && Step(s, a).threads[t] == s.threads[t]
  {
  }

  lemma DebtStep(s: State, a: Action, t: Tid)
    requires HistoriesOk(s) && Enabled(s, a) && t in s.threads && PastSnapshot(s.threads[t])
    ensures t in Step(s, a).threads && PastSnapshot(Step(s, a).threads[t])
    ensures Debt(Step(s, a).threads[t]) + (if a.t == t then 1 else 0)
            <= Debt(s.threads[t]) + (if a.t == t && a.Advance? && IsRetryable(a.answer) then 5 else 0)
  {
    if a.t == t {
      CleanupStepWorks(s, a);
    } else {
      OtherThreadsStay(s, a, t);
    }
  }

  /** However others interleave, a cleanup takes a bounded number of steps plus five per retryable Wait failure. */
  lemma {:induction false} CleanupIsBounded(s: State, t: Tid, run: seq<Action>)
    requires Inv(s) && IsRun(s, run) && t in s.threads && PastSnapshot(s.threads[t])
    ensures t in After(s, run).threads
    ensures StepsOf(t, run) + Debt(After(s, run).threads[t]) <= Debt(s.threads[t]) + 5 * Retries(t, run)
    decreases |run|
  {
    if run != [] {
      var a, s' := run[0], Step(s, run[0]);
      DebtStep(s, a, t);
      assert Inv(s') by { StepKeepsInv(s, a); }
      CleanupIsBounded(s', t, run[1..]);
    }
  }
}
