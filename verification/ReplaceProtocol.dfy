/**
 The replace tool under concurrency: any number of calls take turns on the
 one-slot commit lease, and another writer may change entries and contents
 between any two steps (replace.go).
 */
module ReplaceProtocol {
  import opened Common
  import opened ReplaceCall
  import opened ReplaceSafety
  import opened ReplaceEvents
  import opened ReplaceSerial

  type Tid = nat

  datatype Phase =
    | Waiting
    | GaveUp
    | Critical(l: Local)
    | Over(l: Local)

  datatype Call = Call(req: Request, phase: Phase)

  datatype Logged = Logged(t: Tid, entry: Entry)

  datatype State = State(
    fs: FS,
    lease: Option<Tid>,
    calls: map<Tid, Call>,
    // history
    clean: bool,              // no other writer has stepped since the current attempt opened the target
    base: FS,                 // the filesystem when the lease was last taken
    script: seq<Choice>,      // the holder's choices since then
    log: seq<Logged>)         // the calls that gave the lease back, in order

  datatype Action =
    | Arrive(t: Tid, req: Request)
    | GiveUp(t: Tid)                     // the context ended before, or while, the lease was taken
    | Acquire(t: Tid)
    | Work(t: Tid, ch: Choice)
    | Unlock(t: Tid)
    | Meddle(fs: FS)                     // another writer: any change; inode numbers are not reused

  ghost predicate Enabled(s: State, a: Action) {
    match a
    case Arrive(t, _) => t !in s.calls
    case GiveUp(t) => t in s.calls && s.calls[t].phase.Waiting?
    case Acquire(t) => t in s.calls && s.calls[t].phase.Waiting? && s.lease.None?
    case Work(t, _) => t in s.calls && s.calls[t].phase.Critical? && !s.calls[t].phase.l.pc.Done?
    case Unlock(t) => t in s.calls && s.calls[t].phase.Critical? && s.calls[t].phase.l.pc.Done?
    case Meddle(fs) => WellFormed(fs) && s.fs.next <= fs.next && s.fs.files.Keys <= fs.files.Keys
  }

  function InPhase(s: State, t: Tid, phase: Phase): State
    requires t in s.calls
  {
    s.(calls := s.calls[t := s.calls[t].(phase := phase)])
  }

  ghost function Step(c: Config, s: State, a: Action): State
    requires Enabled(s, a)
  {
    match a
    case Arrive(t, req) => s.(calls := s.calls[t := Call(req, Waiting)])
    case GiveUp(t) => InPhase(s, t, GaveUp)
    case Acquire(t) => InPhase(s, t, Critical(START)).(lease := Some(t), base := s.fs, script := [])
    case Work(t, ch) =>
      var l := s.calls[t].phase.l;
      var (l1, fs1) := CallStep(c, s.calls[t].req, l, s.fs, ch);
      InPhase(s, t, Critical(l1)).(fs := fs1, script := s.script + [ch], clean := s.clean || l.pc.TryOpen?)
    case Unlock(t) =>
      InPhase(s, t, Over(s.calls[t].phase.l))
      .(lease := None, log := s.log + [Logged(t, Entry(s.calls[t].req, s.script))])
    case Meddle(fs) => s.(fs := fs, clean := false)
  }

  function Initial(fs: FS): State {
    State(fs, None, map[], false, fs, [], [])
  }

  ghost predicate IsRun(c: Config, s: State, run: seq<Action>)
    decreases |run|
  {
    run == [] || (Enabled(s, run[0]) && IsRun(c, Step(c, s, run[0]), run[1..]))
  }

  ghost function After(c: Config, s: State, run: seq<Action>): State
    requires IsRun(c, s, run)
    decreases |run|
  {
    if run == [] then s else After(c, Step(c, s, run[0]), run[1..])
  }

  // ---- with another writer anywhere ----

  ghost predicate HolderOk(c: Config, s: State, t: Tid)
    requires t in s.calls && s.calls[t].phase.Critical?
  {
    var req, l := s.calls[t].req, s.calls[t].phase.l;
    && s.lease == Some(t)
    && StageOk(c, req, l) && OwnExists(l, s.fs)
    && (s.clean ==> AttemptOk(c, req, s.fs, l.pc))
  }

  ghost predicate Inv(c: Config, s: State) {
    && WellFormed(s.fs)
    && (s.lease.Some? ==> s.lease.value in s.calls && s.calls[s.lease.value].phase.Critical?)
    && (forall t :: t in s.calls && s.calls[t].phase.Critical? ==> HolderOk(c, s, t))
    && (forall t :: t in s.calls && s.calls[t].phase.Over? ==>
          StageOk(c, s.calls[t].req, s.calls[t].phase.l) && s.calls[t].phase.l.pc.Done?)
  }

  lemma WorkKeepsInv(c: Config, s: State, a: Action)
    requires Inv(c, s) && Enabled(s, a) && a.Work?
    ensures Inv(c, Step(c, s, a))
  {
    var req, l := s.calls[a.t].req, s.calls[a.t].phase.l;
    assert HolderOk(c, s, a.t);
    assert StageOk(c, req, CallStep(c, req, l, s.fs, a.ch).0) by { StageKept(c, req, l, s.fs, a.ch); }
    StepFootprint(c, req, l, s.fs, a.ch);
    if s.clean || l.pc.TryOpen? {
      AttemptKept(c, req, l, s.fs, a.ch);
    }
    var s' := Step(c, s, a);
    assert HolderOk(c, s', a.t);
  }

  lemma StepKeepsInv(c: Config, s: State, a: Action)
    requires Inv(c, s) && Enabled(s, a)
    ensures Inv(c, Step(c, s, a))
  {
    if a.Work? {
      WorkKeepsInv(c, s, a);
    } else {
      var s' := Step(c, s, a);
      forall t | t in s'.calls && s'.calls[t].phase.Critical? ensures HolderOk(c, s', t) {
        if !(a.Acquire? && t == a.t) {
          assert HolderOk(c, s, t);
        }
      }
      if a.Unlock? {
        assert HolderOk(c, s, a.t);
      }
    }
  }

  lemma {:induction false} RunKeepsInv(c: Config, s: State, run: seq<Action>)
    requires Inv(c, s) && IsRun(c, s, run)
    ensures Inv(c, After(c, s, run))
    decreases |run|
  {
    if run != [] {
      StepKeepsInv(c, s, run[0]);
      RunKeepsInv(c, Step(c, s, run[0]), run[1..]);
    }
  }

  /** This action is the rename or link of call t. */
  ghost predicate CommitStep(s: State, a: Action, t: Tid) {
    && a.Work? && a.t == t && Enabled(s, a)
    && Commits(s.calls[t].req, s.calls[t].phase.l, s.fs, a.ch)
  }

  /** The history flag means what it says: after an attempt's open it holds until another writer steps, and only then falls. */
  lemma CleanMeansUndisturbed(c: Config, s: State, a: Action)
    requires Enabled(s, a)
    ensures a.Work? && s.calls[a.t].phase.l.pc.TryOpen? ==> Step(c, s, a).clean
    ensures s.clean && !Step(c, s, a).clean <==> s.clean && a.Meddle?
    ensures !s.clean && Step(c, s, a).clean ==> a.Work? && s.calls[a.t].phase.l.pc.TryOpen?
  {
  }

  /** In create mode no step of any call, at any time, touches an entry other than the call's own temporary. */
  lemma CreateKeepsEveryEntry(c: Config, fs0: FS, run: seq<Action>, a: Action, n: Name)
    requires WellFormed(fs0) && IsRun(c, Initial(fs0), run)
    requires var s := After(c, Initial(fs0), run);
             && a.Work? && Enabled(s, a) && s.calls[a.t].req.mode.Create?
             && n in s.fs.names && s.calls[a.t].phase.l.temp != Some(n)
    ensures var s := After(c, Initial(fs0), run);
            n in Step(c, s, a).fs.names && Step(c, s, a).fs.names[n] == s.fs.names[n]
  {
    RunKeepsInv(c, Initial(fs0), run);
    var s := After(c, Initial(fs0), run);
    assert HolderOk(c, s, a.t);
    CreateNeverOverwrites(c, s.calls[a.t].req, s.calls[a.t].phase.l, s.fs, a.ch, n);
  }

  ghost function CommitStepsOf(c: Config, s: State, run: seq<Action>, t: Tid): nat
    requires IsRun(c, s, run)
    decreases |run|
  {
    if run == [] then 0
    else (if CommitStep(s, run[0], t) then 1 else 0) + CommitStepsOf(c, Step(c, s, run[0]), run[1..], t)
  }

  function Counted(s: State, t: Tid): nat {
    if t in s.calls && (s.calls[t].phase.Critical? || s.calls[t].phase.Over?) then s.calls[t].phase.l.commits else 0
  }

  lemma StepCountsCommits(c: Config, s: State, a: Action, t: Tid)
    requires Inv(c, s) && Enabled(s, a)
    ensures Counted(Step(c, s, a), t) == Counted(s, t) + (if CommitStep(s, a, t) then 1 else 0)
  {
    if a.Work? && a.t == t {
      assert HolderOk(c, s, t);
      StageKept(c, s.calls[t].req, s.calls[t].phase.l, s.fs, a.ch);
    }
  }

  lemma {:induction false} RunCountsCommits(c: Config, s: State, run: seq<Action>, t: Tid)
    requires Inv(c, s) && IsRun(c, s, run)
    ensures Counted(After(c, s, run), t) == Counted(s, t) + CommitStepsOf(c, s, run, t)
    decreases |run|
  {
    if run != [] {
      assert Counted(Step(c, s, run[0]), t) == Counted(s, t) + (if CommitStep(s, run[0], t) then 1 else 0)
      by { StepCountsCommits(c, s, run[0], t); }
      assert Inv(c, Step(c, s, run[0])) by { StepKeepsInv(c, s, run[0]); }
      RunCountsCommits(c, Step(c, s, run[0]), run[1..], t);
    }
  }

  /** Whatever others write, a finished call reports a commit exactly when one rename or link of its own succeeded, and never more than one does. */
  lemma CommitReportedExactly(c: Config, fs0: FS, run: seq<Action>, t: Tid, encodable: bool)
    requires WellFormed(fs0) && IsRun(c, Initial(fs0), run)
    requires var s := After(c, Initial(fs0), run); t in s.calls && s.calls[t].phase.Over?
    ensures After(c, Initial(fs0), run).calls[t].phase.l.pc.Done?
    ensures var outcome := After(c, Initial(fs0), run).calls[t].phase.l.pc.outcome;
            var steps := CommitStepsOf(c, Initial(fs0), run, t);
            && steps <= 1
            && (outcome.Committed? <==> steps == 1)
            && (AdmitsCommit(ReplyTo(outcome, encodable)) <==> steps == 1)
            && (SameDigest(c, After(c, Initial(fs0), run).calls[t].req) ==> steps == 0)
  {
    RunKeepsInv(c, Initial(fs0), run);
    RunCountsCommits(c, Initial(fs0), run, t);
  }

  /** Call t is on its way out, or out, with this outcome. */
  predicate EndsWith(s: State, t: Tid, outcome: Outcome) {
    && t in s.calls && (s.calls[t].phase.Critical? || s.calls[t].phase.Over?)
    && Ending(s.calls[t].phase.l.pc) && s.calls[t].phase.l.pc.outcome == outcome
  }

  lemma EndStays(c: Config, s: State, a: Action, t: Tid, outcome: Outcome)
    requires Inv(c, s) && Enabled(s, a) && EndsWith(s, t, outcome)
    ensures EndsWith(Step(c, s, a), t, outcome) && !CommitStep(s, a, t)
  {
    if a.Work? && a.t == t {
      assert HolderOk(c, s, t);
      EndingIsSettled(c, s.calls[t].req, s.calls[t].phase.l, s.fs, a.ch);
    }
  }

  lemma {:induction false} EndStaysForever(c: Config, s: State, run: seq<Action>, t: Tid, outcome: Outcome)
    requires Inv(c, s) && IsRun(c, s, run) && EndsWith(s, t, outcome)
    ensures EndsWith(After(c, s, run), t, outcome) && CommitStepsOf(c, s, run, t) == 0
    decreases |run|
  {
    if run != [] {
      EndStays(c, s, run[0], t, outcome);
      assert Inv(c, Step(c, s, run[0])) by { StepKeepsInv(c, s, run[0]); }
      EndStaysForever(c, Step(c, s, run[0]), run[1..], t, outcome);
    }
  }

  /** This action is a step of call t that comes upon this event. */
  ghost predicate ShowsTo(c: Config, s: State, a: Action, t: Tid, event: Event)
    requires Enabled(s, a)
  {
    a.Work? && a.t == t && Shows(c, s.calls[t].req, s.calls[t].phase.l, s.fs, a.ch, event)
  }

  /** Along the run, some step of call t comes upon this event. */
  ghost predicate MeetsIn(c: Config, s: State, run: seq<Action>, t: Tid, event: Event)
    requires IsRun(c, s, run)
    decreases |run|
  {
    run != [] && (ShowsTo(c, s, run[0], t, event) || MeetsIn(c, Step(c, s, run[0]), run[1..], t, event))
  }

  predicate Settled(s: State, t: Tid) {
    t in s.calls && (s.calls[t].phase.Critical? || s.calls[t].phase.Over?) && Ending(s.calls[t].phase.l.pc)
  }

  lemma {:induction false} SettledMeetsNothing(c: Config, s: State, run: seq<Action>, t: Tid, event: Event)
    requires Inv(c, s) && IsRun(c, s, run) && Settled(s, t)
    ensures EndsWith(After(c, s, run), t, s.calls[t].phase.l.pc.outcome)
    ensures !event.FailedDiscard? ==> !MeetsIn(c, s, run, t, event)
    decreases |run|
  {
    if run != [] {
      EndStays(c, s, run[0], t, s.calls[t].phase.l.pc.outcome);
      assert Inv(c, Step(c, s, run[0])) by { StepKeepsInv(c, s, run[0]); }
      if !event.FailedDiscard? && ShowsTo(c, s, run[0], t, event) {
        EndingShowsNothing(c, s.calls[t].req, s.calls[t].phase.l, s.fs, run[0].ch, event);
      }
      SettledMeetsNothing(c, Step(c, s, run[0]), run[1..], t, event);
    }
  }

  /** An action settles call t as cancelled, unchanged or refused exactly when it shows it the reason. */
  lemma ActionTells(c: Config, s: State, a: Action, t: Tid, event: Event)
    requires Inv(c, s) && Enabled(s, a) && !Settled(s, t) && Brought(event).Some?
    ensures ShowsTo(c, s, a, t, event) <==> EndsWith(Step(c, s, a), t, Brought(event).value)
  {
    if a.Work? && a.t == t {
      assert HolderOk(c, s, t);
      StepTells(c, s.calls[t].req, s.calls[t].phase.l, s.fs, a.ch, event);
    }
  }

  lemma {:induction false} OutcomeToldAlong(c: Config, s: State, run: seq<Action>, t: Tid, event: Event)
    requires Inv(c, s) && IsRun(c, s, run) && !Settled(s, t) && Brought(event).Some?
    ensures MeetsIn(c, s, run, t, event) <==> EndsWith(After(c, s, run), t, Brought(event).value)
    decreases |run|
  {
    if run != [] {
      var s1 := Step(c, s, run[0]);
      ActionTells(c, s, run[0], t, event);
      assert Inv(c, s1) by { StepKeepsInv(c, s, run[0]); }
      if Settled(s1, t) {
        SettledMeetsNothing(c, s1, run[1..], t, event);
      } else {
        OutcomeToldAlong(c, s1, run[1..], t, event);
      }
    }
  }

  /** No removal of call t's temporary after its commit has failed so far. */
  predicate CleanSoFar(s: State, t: Tid) {
    t in s.calls && s.calls[t].phase.Critical? && s.calls[t].phase.l.pc.SyncCommitted? ==> s.calls[t].phase.l.pc.cleaned
  }

  ghost predicate CommitToldBy(c: Config, s: State, a: Action, t: Tid)
    requires Enabled(s, a)
  {
    var s1 := Step(c, s, a);
    && (Settled(s1, t) && s1.calls[t].phase.l.pc.outcome.Committed? ==>
          var outcome := s1.calls[t].phase.l.pc.outcome;
          && (outcome.created <==> s1.calls[t].req.mode.Create?)
          && (outcome.durable <==> !ShowsTo(c, s, a, t, FailedSync))
          && (outcome.cleaned <==> CleanSoFar(s, t)) && !ShowsTo(c, s, a, t, FailedRemoval))
    && (!Settled(s1, t) ==>
          && !ShowsTo(c, s, a, t, FailedSync)
          && (CleanSoFar(s1, t) <==> CleanSoFar(s, t) && !ShowsTo(c, s, a, t, FailedRemoval)))
  }

  lemma ActionTellsCommit(c: Config, s: State, a: Action, t: Tid)
    requires Inv(c, s) && Enabled(s, a) && !Settled(s, t)
    ensures CommitToldBy(c, s, a, t)
  {
    if a.Work? && a.t == t {
      assert HolderOk(c, s, t);
      CommitTells(c, s.calls[t].req, s.calls[t].phase.l, s.fs, a.ch);
    }
  }

  lemma {:induction false} CommitToldAlong(c: Config, s: State, run: seq<Action>, t: Tid)
    requires Inv(c, s) && IsRun(c, s, run) && !Settled(s, t)
    ensures var s1 := After(c, s, run);
            Settled(s1, t) && s1.calls[t].phase.l.pc.outcome.Committed? ==>
              var outcome := s1.calls[t].phase.l.pc.outcome;
              && (outcome.created <==> s1.calls[t].req.mode.Create?)
              && (outcome.durable <==> !MeetsIn(c, s, run, t, FailedSync))
              && (outcome.cleaned <==> CleanSoFar(s, t) && !MeetsIn(c, s, run, t, FailedRemoval))
    decreases |run|
  {
    if run != [] {
      var s1 := Step(c, s, run[0]);
      ActionTellsCommit(c, s, run[0], t);
      assert Inv(c, s1) by { StepKeepsInv(c, s, run[0]); }
      if Settled(s1, t) {
        SettledMeetsNothing(c, s1, run[1..], t, FailedSync);
        SettledMeetsNothing(c, s1, run[1..], t, FailedRemoval);
        RequestStays(c, s1, run[1..], t);
      } else {
        CommitToldAlong(c, s1, run[1..], t);
      }
    }
  }

  lemma {:induction false} RequestStays(c: Config, s: State, run: seq<Action>, t: Tid)
    requires IsRun(c, s, run) && t in s.calls
    ensures t in After(c, s, run).calls && After(c, s, run).calls[t].req == s.calls[t].req
    decreases |run|
  {
    if run != [] {
      RequestStays(c, Step(c, s, run[0]), run[1..], t);
    }
  }

  /**
   Whatever others write: a call is on its way out as cancelled, unchanged or refused
   with some code if and only if one of its steps came upon the reason for it, and
   then it never commits; a committed one is durable if and only if its syncs did not
   fail, and cleaned if and only if its first removal did not.
   */
  lemma OutcomeIsTold(c: Config, fs0: FS, run: seq<Action>, t: Tid, event: Event)
    requires WellFormed(fs0) && IsRun(c, Initial(fs0), run)
    ensures Brought(event).Some? ==>
              && (MeetsIn(c, Initial(fs0), run, t, event) <==> EndsWith(After(c, Initial(fs0), run), t, Brought(event).value))
              && (MeetsIn(c, Initial(fs0), run, t, event) ==> CommitStepsOf(c, Initial(fs0), run, t) == 0)
    ensures var s := After(c, Initial(fs0), run);
            Settled(s, t) && s.calls[t].phase.l.pc.outcome.Committed? ==>
              var outcome := s.calls[t].phase.l.pc.outcome;
              && (outcome.created <==> s.calls[t].req.mode.Create?)
              && (outcome.durable <==> !MeetsIn(c, Initial(fs0), run, t, FailedSync))
              && (outcome.cleaned <==> !MeetsIn(c, Initial(fs0), run, t, FailedRemoval))
  {
    CommitToldAlong(c, Initial(fs0), run, t);
    if Brought(event).Some? {
      OutcomeToldAlong(c, Initial(fs0), run, t, event);
      RunKeepsInv(c, Initial(fs0), run);
      RunCountsCommits(c, Initial(fs0), run, t);
      var s := After(c, Initial(fs0), run);
      if EndsWith(s, t, Brought(event).value) && s.calls[t].phase.Critical? {
        assert HolderOk(c, s, t);
      }
    }
  }

  /** The same of the reply that a finished call gives, in any interleaving and whatever others write. */
  lemma ReplyIsTold(c: Config, fs0: FS, run: seq<Action>, t: Tid, encodable: bool)
    requires WellFormed(fs0) && IsRun(c, Initial(fs0), run)
    requires var s := After(c, Initial(fs0), run); t in s.calls && s.calls[t].phase.Over? && s.calls[t].phase.l.pc.Done?
    ensures var s := After(c, Initial(fs0), run);
            var reply := ReplyTo(s.calls[t].phase.l.pc.outcome, encodable);
            && (reply == Cancellation <==> MeetsIn(c, Initial(fs0), run, t, EndedContext))
            && (forall code :: reply == Problem(code) <==> MeetsIn(c, Initial(fs0), run, t, Refuses(code)))
            && (DeniesChange(reply) <==> MeetsIn(c, Initial(fs0), run, t, NothingToChange))
            && (reply.Result? ==> encodable) && (reply.Undelivered? ==> !encodable)
            && ResultTold(s.calls[t].req, reply, MeetsIn(c, Initial(fs0), run, t, FailedSync),
                          MeetsIn(c, Initial(fs0), run, t, FailedRemoval))
  {
    var s := After(c, Initial(fs0), run);
    var outcome := s.calls[t].phase.l.pc.outcome;
    OutcomeIsTold(c, fs0, run, t, EndedContext);
    OutcomeIsTold(c, fs0, run, t, NothingToChange);
    forall code ensures outcome == Refused(code) <==> MeetsIn(c, Initial(fs0), run, t, Refuses(code)) {
      OutcomeIsTold(c, fs0, run, t, Refuses(code));
    }
    ReplyMirrors(outcome, encodable, s.calls[t].req);
  }

  /** This action reads content whose digest is not the expected one, in preflight or in any attempt. */
  ghost predicate DifferingRead(c: Config, s: State, a: Action) {
    && a.Work? && Enabled(s, a) && s.calls[a.t].req.mode.Replace?
    && var l := s.calls[a.t].phase.l;
       && (l.pc.PreRead? || l.pc.TryRead?) && l.pc.ino in s.fs.files
       && DigestText(c, s.fs.files[l.pc.ino]) != s.calls[a.t].req.mode.expected
  }

  /** A change that any digest read notices ends that call in an error, and neither before nor after does it commit. */
  lemma DifferingReadNeverCommits(c: Config, fs0: FS, before: seq<Action>, a: Action, rest: seq<Action>) returns (code: Code)
    requires WellFormed(fs0) && IsRun(c, Initial(fs0), before)
    requires DifferingRead(c, After(c, Initial(fs0), before), a)
    requires IsRun(c, Step(c, After(c, Initial(fs0), before), a), rest)
    ensures CommitStepsOf(c, Initial(fs0), before, a.t) == 0
    ensures Step(c, After(c, Initial(fs0), before), a).fs == After(c, Initial(fs0), before).fs
    ensures var s1 := Step(c, After(c, Initial(fs0), before), a);
            && EndsWith(After(c, s1, rest), a.t, Refused(code))
            && CommitStepsOf(c, s1, rest, a.t) == 0
  {
    RunKeepsInv(c, Initial(fs0), before);
    var s := After(c, Initial(fs0), before);
    assert HolderOk(c, s, a.t);
    DifferingReadEndsTheCall(c, s.calls[a.t].req, s.calls[a.t].phase.l, s.fs, a.ch);
    RunCountsCommits(c, Initial(fs0), before, a.t);
    StepKeepsInv(c, s, a);
    var s1 := Step(c, s, a);
    code := s1.calls[a.t].phase.l.pc.outcome.code;
    EndStaysForever(c, s1, rest, a.t, Refused(code));
  }

  // ---- with no other writer: equal to a series of calls in lease order ----

  ghost predicate Undisturbed(run: seq<Action>) {
    forall i :: 0 <= i < |run| ==> !run[i].Meddle?
  }

  function Entries(log: seq<Logged>): (q: seq<Entry>)
    ensures |q| == |log|
    ensures forall i :: 0 <= i < |log| ==> q[i] == log[i].entry
  {
    seq(|log|, i requires 0 <= i < |log| => log[i].entry)
  }

  /** How the k-th call of the log ends when the calls are made one after another in that order. */
  function SerialEnd(c: Config, fs0: FS, log: seq<Logged>, k: nat): Local
    requires k < |log|
  {
    RunEntry(c, Serial(c, fs0, Entries(log[..k])), log[k].entry).0
  }

  ghost predicate SerialSoFar(c: Config, fs0: FS, s: State) {
    && Complete(c, fs0, Entries(s.log))
    && Serial(c, fs0, Entries(s.log)) == (if s.lease.Some? then s.base else s.fs)
    && (s.lease.Some? ==>
          && s.lease.value in s.calls && s.calls[s.lease.value].phase.Critical?
          && RunCall(c, s.calls[s.lease.value].req, START, s.base, s.script) == (s.calls[s.lease.value].phase.l, s.fs))
    && (forall t :: t in s.calls && s.calls[t].phase.Critical? ==> s.lease == Some(t))
  }

  ghost predicate LoggedAs(c: Config, fs0: FS, s: State, k: nat)
    requires k < |s.log|
  {
    && s.log[k].t in s.calls
    && s.calls[s.log[k].t] == Call(s.log[k].entry.req, Over(SerialEnd(c, fs0, s.log, k)))
  }

  predicate InLog(log: seq<Logged>, t: Tid) {
    exists k :: 0 <= k < |log| && log[k].t == t
  }

  ghost predicate LogSound(c: Config, fs0: FS, s: State) {
    && (forall k :: 0 <= k < |s.log| ==> LoggedAs(c, fs0, s, k))
    && (forall j, k :: 0 <= j < k < |s.log| ==> s.log[j].t != s.log[k].t)
    && (forall t :: t in s.calls && s.calls[t].phase.Over? ==> InLog(s.log, t))
  }

  lemma {:induction false} SerialAppend(c: Config, fs: FS, log: seq<Entry>, e: Entry)
    ensures Serial(c, fs, log + [e]) == RunEntry(c, Serial(c, fs, log), e).1
    ensures Complete(c, fs, log + [e]) <==> Complete(c, fs, log) && RunEntry(c, Serial(c, fs, log), e).0.pc.Done?
    decreases |log|
  {
    if log == [] {
      assert log + [e] == [e] && [e][1..] == [];
    } else {
      assert (log + [e])[1..] == log[1..] + [e] && (log + [e])[0] == log[0];
      SerialAppend(c, RunEntry(c, fs, log[0]).1, log[1..], e);
    }
  }

  lemma StepKeepsSerial(c: Config, fs0: FS, s: State, a: Action)
    requires SerialSoFar(c, fs0, s) && Enabled(s, a) && !a.Meddle?
    ensures SerialSoFar(c, fs0, Step(c, s, a))
  {
    if a.Unlock? {
      var e := Entry(s.calls[a.t].req, s.script);
      assert Entries(Step(c, s, a).log) == Entries(s.log) + [e];
      SerialAppend(c, fs0, Entries(s.log), e);
    } else if a.Work? {
      RunCallAppend(c, s.calls[a.t].req, START, s.base, s.script, a.ch);
    }
  }

  lemma UnlockKeepsEntry(c: Config, fs0: FS, s: State, a: Action, k: nat)
    requires Enabled(s, a) && a.Unlock? && k < |s.log| && LoggedAs(c, fs0, s, k)
    ensures LoggedAs(c, fs0, Step(c, s, a), k) && s.log[k].t != a.t
  {
    assert Step(c, s, a).log[..k] == s.log[..k];
  }

  lemma UnlockAddsEntry(c: Config, fs0: FS, s: State, a: Action)
    requires SerialSoFar(c, fs0, s) && Enabled(s, a) && a.Unlock?
    ensures LoggedAs(c, fs0, Step(c, s, a), |s.log|)
  {
    assert Step(c, s, a).log[..|s.log|] == s.log;
  }

  lemma UnlockKeepsLog(c: Config, fs0: FS, s: State, a: Action)
    requires SerialSoFar(c, fs0, s) && LogSound(c, fs0, s) && Enabled(s, a) && a.Unlock?
    ensures LogSound(c, fs0, Step(c, s, a))
  {
    var s' := Step(c, s, a);
    UnlockAddsEntry(c, fs0, s, a);
    forall k | 0 <= k < |s.log| ensures LoggedAs(c, fs0, s', k) && s'.log[k].t != a.t {
      UnlockKeepsEntry(c, fs0, s, a, k);
    }
    forall t | t in s'.calls && s'.calls[t].phase.Over? ensures InLog(s'.log, t) {
      if t == a.t {
        assert s'.log[|s.log|].t == t;
      } else {
        var k :| 0 <= k < |s.log| && s.log[k].t == t;
        assert s'.log[k].t == t;
      }
    }
  }

  lemma StepKeepsLog(c: Config, fs0: FS, s: State, a: Action)
    requires SerialSoFar(c, fs0, s) && LogSound(c, fs0, s) && Enabled(s, a) && !a.Meddle?
    ensures LogSound(c, fs0, Step(c, s, a))
  {
    if a.Unlock? {
      UnlockKeepsLog(c, fs0, s, a);
    } else {
      var s' := Step(c, s, a);
      forall k | 0 <= k < |s'.log| ensures LoggedAs(c, fs0, s', k) {
        assert LoggedAs(c, fs0, s, k);
      }
      assert forall t :: t in s'.calls && s'.calls[t].phase.Over? ==> s.calls[t].phase.Over?;
    }
  }

  lemma {:induction false} RunSerialises(c: Config, fs0: FS, s: State, run: seq<Action>)
    requires SerialSoFar(c, fs0, s) && LogSound(c, fs0, s) && IsRun(c, s, run) && Undisturbed(run)
    ensures SerialSoFar(c, fs0, After(c, s, run)) && LogSound(c, fs0, After(c, s, run))
    decreases |run|
  {
    if run != [] {
      StepKeepsSerial(c, fs0, s, run[0]);
      StepKeepsLog(c, fs0, s, run[0]);
      assert Undisturbed(run[1..]);
      RunSerialises(c, fs0, Step(c, s, run[0]), run[1..]);
    }
  }

  /**
   Every run of concurrent calls without another writer, with cancellation
   anywhere, equals the series of its calls in lease order: the same filesystem
   once the lease is free, and the same end for every finished call.
   */
  lemma ConcurrentEqualsSerial(c: Config, fs0: FS, run: seq<Action>, t: Tid) returns (k: nat)
    requires IsRun(c, Initial(fs0), run) && Undisturbed(run)
    ensures var s := After(c, Initial(fs0), run);
            && Complete(c, fs0, Entries(s.log))
            && (s.lease.None? ==> s.fs == Serial(c, fs0, Entries(s.log)))
            && (forall i, j :: 0 <= i < j < |s.log| ==> s.log[i].t != s.log[j].t)
            && (t in s.calls && s.calls[t].phase.Over? ==>
                  && k < |s.log| && s.log[k].t == t && s.log[k].entry.req == s.calls[t].req
                  && s.calls[t].phase.l == SerialEnd(c, fs0, s.log, k))
  {
    RunSerialises(c, fs0, Initial(fs0), run);
    var s := After(c, Initial(fs0), run);
    k := 0;
    if t in s.calls && s.calls[t].phase.Over? {
      k :| 0 <= k < |s.log| && s.log[k].t == t;
      assert LoggedAs(c, fs0, s, k);
    }
  }

  lemma {:induction false} CommitsAreCounted(c: Config, fs: FS, log: seq<Entry>, path: Name, j: nat)
    requires j < |log| && log[j].req.path == path && CommitsNow(c, Serial(c, fs, log[..j]), log[j])
    ensures CommitsOn(c, fs, log, path) >= 1
    decreases |log|
  {
    if j > 0 {
      assert log[..j][1..] == log[1..][..j - 1];
      CommitsAreCounted(c, RunEntry(c, fs, log[0]).1, log[1..], path, j - 1);
    }
  }

  lemma {:induction false} TwoCommitsAreCounted(c: Config, fs: FS, log: seq<Entry>, path: Name, j: nat, k: nat)
    requires j < k < |log| && log[j].req.path == path && log[k].req.path == path
    requires CommitsNow(c, Serial(c, fs, log[..j]), log[j]) && CommitsNow(c, Serial(c, fs, log[..k]), log[k])
    ensures CommitsOn(c, fs, log, path) >= 2
    decreases |log|
  {
    assert log[..k][1..] == log[1..][..k - 1];
    if j == 0 {
      CommitsAreCounted(c, RunEntry(c, fs, log[0]).1, log[1..], path, k - 1);
    } else {
      assert log[..j][1..] == log[1..][..j - 1];
      TwoCommitsAreCounted(c, RunEntry(c, fs, log[0]).1, log[1..], path, j - 1, k - 1);
    }
  }

  /** In any interleaving of calls that name one path and one expectation, at most one commits. */
  lemma ConcurrentBatchCommitsOnce(c: Config, fs0: FS, run: seq<Action>, path: Name, mode: Mode, t: Tid, u: Tid)
    requires WellFormed(fs0) && IsRun(c, Initial(fs0), run) && Undisturbed(run)
    requires var s := After(c, Initial(fs0), run);
             && (forall x :: x in s.calls && s.calls[x].req.path == path ==> s.calls[x].req.mode == mode)
             && t in s.calls && s.calls[t].phase.Over? && s.calls[t].req.path == path
             && s.calls[t].phase.l.pc.Done? && s.calls[t].phase.l.pc.outcome.Committed?
             && u in s.calls && s.calls[u].phase.Over? && s.calls[u].req.path == path
             && s.calls[u].phase.l.pc.Done? && s.calls[u].phase.l.pc.outcome.Committed?
    ensures t == u
  {
    var s := After(c, Initial(fs0), run);
    RunSerialises(c, fs0, Initial(fs0), run);
    var j := ConcurrentEqualsSerial(c, fs0, run, t);
    var k := ConcurrentEqualsSerial(c, fs0, run, u);
    var log := Entries(s.log);
    assert log[..j] == Entries(s.log[..j]) && log[..k] == Entries(s.log[..k]);
    forall i | 0 <= i < |log| && log[i].req.path == path ensures log[i].req.mode == mode {
      assert LoggedAs(c, fs0, s, i);
    }
    BatchCommitsOnce(c, fs0, log, path, mode);
    if j < k {
      TwoCommitsAreCounted(c, fs0, log, path, j, k);
    } else if k < j {
      TwoCommitsAreCounted(c, fs0, log, path, k, j);
    }
  }

  // ---- the hash chain in lease order ----

  lemma {:induction false} SerialConcat(c: Config, fs: FS, a: seq<Entry>, b: seq<Entry>)
    ensures Serial(c, fs, a + b) == Serial(c, Serial(c, fs, a), b)
    ensures Complete(c, fs, a + b) <==> Complete(c, fs, a) && Complete(c, Serial(c, fs, a), b)
    decreases |a|
  {
    if a == [] {
      assert a + b == b;
    } else {
      assert (a + b)[1..] == a[1..] + b;
      SerialConcat(c, RunEntry(c, fs, a[0]).1, a[1..], b);
    }
  }

  lemma {:induction false} SerialWellFormed(c: Config, fs: FS, log: seq<Entry>)
    requires WellFormed(fs) && Complete(c, fs, log)
    ensures WellFormed(Serial(c, fs, log))
    decreases |log|
  {
    if log != [] {
      CallIsAtomic(c, log[0].req, fs, log[0].script);
      SerialWellFormed(c, RunEntry(c, fs, log[0]).1, log[1..]);
    }
  }

  lemma {:induction false} NoneIsCounted(c: Config, fs: FS, log: seq<Entry>, path: Name)
    requires forall i :: 0 <= i < |log| && log[i].req.path == path ==> !CommitsNow(c, Serial(c, fs, log[..i]), log[i])
    ensures CommitsOn(c, fs, log, path) == 0
    decreases |log|
  {
    if log != [] {
      var fs1, rest := RunEntry(c, fs, log[0]).1, log[1..];
      assert log[..0] == [];
      forall i | 0 <= i < |rest| && rest[i].req.path == path ensures !CommitsNow(c, Serial(c, fs1, rest[..i]), rest[i]) {
        assert log[..i + 1][1..] == rest[..i] && log[i + 1] == rest[i];
      }
      NoneIsCounted(c, fs1, rest, path);
    }
  }

  /** A series up to m, taken apart at its j-th call. */
  lemma SerialAround(c: Config, fs0: FS, log: seq<Entry>, j: nat, m: nat)
    requires j < m <= |log|
    ensures var fs1 := RunEntry(c, Serial(c, fs0, log[..j]), log[j]).1;
            && Serial(c, fs0, log[..m]) == Serial(c, fs1, log[j + 1..m])
            && (Complete(c, fs0, log[..m]) ==> Complete(c, fs0, log[..j]) && Complete(c, fs1, log[j + 1..m]))
  {
    assert log[..m] == log[..j] + log[j..m];
    assert log[j..m][1..] == log[j + 1..m];
    SerialConcat(c, fs0, log[..j], log[j..m]);
  }

  predicate CommitsAt(c: Config, fs0: FS, log: seq<Entry>, k: nat, path: Name)
    requires k < |log|
  {
    log[k].req.path == path && CommitsNow(c, Serial(c, fs0, log[..k]), log[k])
  }

  lemma NoneBetween(c: Config, fs0: FS, log: seq<Entry>, path: Name, j: nat, k: nat)
    requires j < k < |log| && forall i :: j < i < k ==> !CommitsAt(c, fs0, log, i, path)
    ensures CommitsOn(c, RunEntry(c, Serial(c, fs0, log[..j]), log[j]).1, log[j + 1..k], path) == 0
  {
    var fs1, between := RunEntry(c, Serial(c, fs0, log[..j]), log[j]).1, log[j + 1..k];
    forall i | 0 <= i < |between| && between[i].req.path == path
      ensures !CommitsNow(c, Serial(c, fs1, between[..i]), between[i])
    {
      SerialAround(c, fs0, log, j, j + 1 + i);
      assert between[..i] == log[j + 1..j + 1 + i];
      assert !CommitsAt(c, fs0, log, j + 1 + i, path);
    }
    NoneIsCounted(c, fs1, between, path);
  }

  lemma SeriesFormsHashChain(c: Config, fs0: FS, log: seq<Entry>, path: Name, j: nat, k: nat)
    requires WellFormed(fs0) && Complete(c, fs0, log) && j < k < |log|
    requires CommitsAt(c, fs0, log, j, path) && CommitsAt(c, fs0, log, k, path)
    requires forall i :: j < i < k ==> !CommitsAt(c, fs0, log, i, path)
    ensures log[k].req.mode == Replace(DigestText(c, log[j].req.content))
  {
    assert log == log[..k] + log[k..];
    SerialConcat(c, fs0, log[..k], log[k..]);
    SerialAround(c, fs0, log, j, k);
    SerialWellFormed(c, fs0, log[..j]);
    NoneBetween(c, fs0, log, path, j, k);
    CommitsFormHashChain(c, Serial(c, fs0, log[..j]), log[j], log[j + 1..k], log[k]);
  }

  /** The k-th call to give the lease back committed onto this path. */
  predicate CommittedOn(s: State, k: nat, path: Name)
    requires k < |s.log|
  {
    && s.log[k].t in s.calls
    && var call := s.calls[s.log[k].t];
       && call.req.path == path && call.phase.Over?
       && call.phase.l.pc.Done? && call.phase.l.pc.outcome.Committed?
  }

  lemma CommittedInSeries(c: Config, fs0: FS, s: State, k: nat, path: Name)
    requires LogSound(c, fs0, s) && k < |s.log|
    ensures CommittedOn(s, k, path) <==> CommitsAt(c, fs0, Entries(s.log), k, path)
    ensures s.log[k].t in s.calls && s.calls[s.log[k].t].req == Entries(s.log)[k].req
  {
    assert LoggedAs(c, fs0, s, k);
    assert Entries(s.log[..k]) == Entries(s.log)[..k];
  }

  /**
   In any interleaving without another writer, of two commits onto a path with none
   between them in lease order, the second call expects exactly the digest of the
   content the first one wrote.
   */
  lemma ConcurrentCommitsFormHashChain(c: Config, fs0: FS, run: seq<Action>, path: Name, j: nat, k: nat)
    requires WellFormed(fs0) && IsRun(c, Initial(fs0), run) && Undisturbed(run)
    requires var s := After(c, Initial(fs0), run);
             && j < k < |s.log| && CommittedOn(s, j, path) && CommittedOn(s, k, path)
             && forall i :: j < i < k ==> !CommittedOn(s, i, path)
    ensures var s := After(c, Initial(fs0), run);
            s.calls[s.log[k].t].req.mode == Replace(DigestText(c, s.calls[s.log[j].t].req.content))
  {
    RunSerialises(c, fs0, Initial(fs0), run);
    var s := After(c, Initial(fs0), run);
    forall i: nat | i < |s.log| ensures CommittedOn(s, i, path) <==> CommitsAt(c, fs0, Entries(s.log), i, path) {
      CommittedInSeries(c, fs0, s, i, path);
    }
    CommittedInSeries(c, fs0, s, j, path);
    CommittedInSeries(c, fs0, s, k, path);
    SeriesFormsHashChain(c, fs0, Entries(s.log), path, j, k);
  }
}
