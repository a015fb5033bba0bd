/**
 What the steps of a replace call come upon, told from the call's place and the
 environment's answer alone, and how exactly the outcome depends on it (replace.go).
 */
module ReplaceEvents {
  import opened Common
  import opened Digests
  import opened ReplaceCall
  import opened ReplaceSafety

  datatype Event =
    | EndedContext             // a check before the commit sees that the context has ended
    | NothingToChange          // the target holds what is asked for
    | Refuses(code: Code)      // something that must be told to the model
    | FailedSync               // the syncs after the commit fail
    | FailedRemoval            // creation's own removal of its temporary fails
    | FailedDiscard            // the deferred removal fails
    | NameTaken                // a proposed temporary name exists already
    | NameFailed               // a temporary cannot be created for another reason
    | RenameFailed             // a rename fails
    | RenameRejected           // a rename fails in a way that cannot be retried

  predicate ChecksContext(pc: Pc) {
    || pc.AfterPreflight? || pc.WriteTemp? || pc.SyncTemp? || pc.Prepared? || pc.CheckCreate?
    || pc.TryOpen? || pc.TryRename? || pc.Pause?
  }

  /** A failing sync of the temporary is reported before the context is looked at. */
  predicate SeesEnd(l: Local, ch: Choice) {
    ChecksContext(l.pc) && ch.cancelled && !(l.pc.SyncTemp? && ch.fault)
  }

  /** The target is opened for its digest. */
  predicate Opening(l: Local, ch: Choice) {
    l.pc.PreOpen? || (l.pc.TryOpen? && !ch.cancelled)
  }

  /** The opened target is read. */
  predicate Reading(pc: Pc) {
    pc.PreRead? || pc.TryRead?
  }

  /** The target's entry leads to a file. */
  predicate LeadsToFile(req: Request, fs: FS, ch: Choice) {
    && req.path in fs.names
    && match fs.names[req.path]
       case File(ino) => ino in fs.files
       case Symlink => ch.linked.Some? && ch.linked.value in fs.files
       case Directory => false
  }

  predicate Readable(l: Local, fs: FS, ch: Choice) {
    Reading(l.pc) && !ch.fault && l.pc.ino in fs.files
  }

  predicate RenameFails(req: Request, l: Local, fs: FS, ch: Choice) {
    l.pc.TryRename? && !ch.cancelled && l.temp.Some? && !RenameSucceeds(fs, l.temp.value, req.path, ch)
  }

  /** Why the call must be refused with this code. */
  predicate Refusal(c: Config, req: Request, l: Local, fs: FS, ch: Choice, code: Code) {
    match code
    case RootUnavailable => l.pc.OpenRoot? && ch.fault
    case PathUnavailable => (l.pc.PreLstat? || (l.pc.CheckCreate? && !ch.cancelled)) && ch.fault
    case AlreadyExists =>
      && req.mode.Create? && req.path in fs.names && !ch.fault
      && (l.pc.PreLstat? || (l.pc.CheckCreate? && !ch.cancelled) || l.pc.LinkRefused?)
    case NotFound => l.pc.PreLstat? && req.mode.Replace? && !ch.fault && req.path !in fs.names
    case NotRegular =>
      && !ch.fault && req.path in fs.names
      && ((l.pc.PreLstat? && req.mode.Replace? && !fs.names[req.path].File?)
          || (Opening(l, ch) && fs.names[req.path].Directory?))
    case ReadFailed =>
      || (Opening(l, ch) && (ch.fault || (!LeadsToFile(req, fs, ch) && !(req.path in fs.names && fs.names[req.path].Directory?))))
      || (Reading(l.pc) && !Readable(l, fs, ch))
    case FileTooLarge => Readable(l, fs, ch) && |fs.files[l.pc.ino]| > c.maxWrite
    case Stale =>
      || (Readable(l, fs, ch) && req.mode.Replace? && |fs.files[l.pc.ino]| <= c.maxWrite
          && DigestText(c, fs.files[l.pc.ino]) != req.mode.expected)
      || (l.pc.TryLstat? && !(!ch.fault && req.path in fs.names && fs.names[req.path].File?))
    case TemporaryFailed => l.pc.CreateTemp? && (l.pc.tries >= 16 || ch.fault)
    case WriteFailed => l.pc.WriteTemp? && !ch.cancelled && ch.fault
    case SyncFailed => l.pc.SyncTemp? && ch.fault
    case CreateFailed => l.pc.LinkRefused? && (ch.fault || req.path !in fs.names)
    case ReplaceFailed => RenameFails(req, l, fs, ch) && (!ch.retryable || l.pc.attempt >= 63)
  }

  predicate Shows(c: Config, req: Request, l: Local, fs: FS, ch: Choice, event: Event) {
    match event
    case EndedContext => SeesEnd(l, ch)
    case NothingToChange => l.pc.AfterPreflight? && !ch.cancelled && SameDigest(c, req)
    case Refuses(code) => Refusal(c, req, l, fs, ch, code)
    case FailedSync => l.pc.SyncCommitted? && ch.fault
    case FailedRemoval => l.pc.RemoveTemp? && (ch.fault || l.temp.None? || l.temp.value !in fs.names)
    case FailedDiscard => l.pc.Discard? && ch.fault
    case NameTaken => l.pc.CreateTemp? && l.pc.tries < 16 && !ch.fault && ch.name in fs.names
    case NameFailed => l.pc.CreateTemp? && l.pc.tries < 16 && ch.fault
    case RenameFailed => RenameFails(req, l, fs, ch)
    case RenameRejected => RenameFails(req, l, fs, ch) && !ch.retryable
  }

  /** The outcome an event brings about. */
  function Brought(event: Event): Option<Outcome> {
    match event
    case EndedContext => Some(Cancelled)
    case NothingToChange => Some(Unchanged)
    case Refuses(code) => Some(Refused(code))
    case _ => None
  }

  predicate EndsWithOutcome(l: Local, outcome: Outcome) {
    Ending(l.pc) && l.pc.outcome == outcome
  }

  // ---- one step ----

  ghost predicate StepTold(c: Config, req: Request, l: Local, fs: FS, ch: Choice, event: Event) {
    Brought(event).Some? ==>
      (Shows(c, req, l, fs, ch, event) <==> !Ending(l.pc) && EndsWithOutcome(CallStep(c, req, l, fs, ch).0, Brought(event).value))
  }

  lemma PreflightTells(c: Config, req: Request, l: Local, fs: FS, ch: Choice, event: Event)
    requires StageOk(c, req, l) && InPreflight(l.pc)
    ensures StepTold(c, req, l, fs, ch, event)
  {
  }

  lemma TemporaryTells(c: Config, req: Request, l: Local, fs: FS, ch: Choice, event: Event)
    requires StageOk(c, req, l) && InTemporary(l.pc)
    ensures StepTold(c, req, l, fs, ch, event)
  {
  }

  lemma CreateTells(c: Config, req: Request, l: Local, fs: FS, ch: Choice, event: Event)
    requires StageOk(c, req, l) && InCreate(l.pc)
    ensures StepTold(c, req, l, fs, ch, event)
  {
  }

  lemma AttemptTells(c: Config, req: Request, l: Local, fs: FS, ch: Choice, event: Event)
    requires StageOk(c, req, l) && InAttempt(l.pc)
    ensures StepTold(c, req, l, fs, ch, event)
  {
  }

  /** A step ends the call cancelled, unchanged or refused exactly when it comes upon the reason for it. */
  lemma StepTells(c: Config, req: Request, l: Local, fs: FS, ch: Choice, event: Event)
    requires StageOk(c, req, l)
    ensures StepTold(c, req, l, fs, ch, event)
  {
    if InPreflight(l.pc) {
      PreflightTells(c, req, l, fs, ch, event);
    } else if InTemporary(l.pc) {
      TemporaryTells(c, req, l, fs, ch, event);
    } else if InCreate(l.pc) {
      CreateTells(c, req, l, fs, ch, event);
    } else if InAttempt(l.pc) {
      AttemptTells(c, req, l, fs, ch, event);
    }
  }

  /** A step ends the call committed only after the syncs, durable exactly when they succeed and cleaned as the removal went. */
  ghost predicate CommitTold(c: Config, req: Request, l: Local, fs: FS, ch: Choice) {
    var pc := CallStep(c, req, l, fs, ch).0.pc;
    && (l.pc.SyncCommitted? <==> !Ending(l.pc) && Ending(pc) && pc.outcome.Committed?)
    && (l.pc.SyncCommitted? ==>
          && pc.outcome.created == req.mode.Create? && pc.outcome.cleaned == l.pc.cleaned
          && (pc.outcome.durable <==> !Shows(c, req, l, fs, ch, FailedSync)))
    && (pc.SyncCommitted? ==> (pc.cleaned <==> !Shows(c, req, l, fs, ch, FailedRemoval)))
    && (Shows(c, req, l, fs, ch, FailedRemoval) ==> pc.SyncCommitted?)
  }

  lemma CommitTells(c: Config, req: Request, l: Local, fs: FS, ch: Choice)
    requires StageOk(c, req, l)
    ensures CommitTold(c, req, l, fs, ch)
  {
    if InPreflight(l.pc) || InTemporary(l.pc) {
      EarlyCommitsNothing(c, req, l, fs, ch);
    }
  }

  lemma EarlyCommitsNothing(c: Config, req: Request, l: Local, fs: FS, ch: Choice)
    requires StageOk(c, req, l) && (InPreflight(l.pc) || InTemporary(l.pc))
    ensures CommitTold(c, req, l, fs, ch)
  {
  }

  // ---- a whole call ----

  /** Some step of the call comes upon this event. */
  predicate Meets(c: Config, req: Request, l: Local, fs: FS, script: seq<Choice>, event: Event)
    decreases |script|
  {
    && script != []
    && var (l1, fs1) := CallStep(c, req, l, fs, script[0]);
       Shows(c, req, l, fs, script[0], event) || Meets(c, req, l1, fs1, script[1..], event)
  }

  lemma {:induction false} DoneStays(c: Config, req: Request, l: Local, fs: FS, script: seq<Choice>, event: Event)
    requires l.pc.Done?
    ensures RunCall(c, req, l, fs, script) == (l, fs) && !Meets(c, req, l, fs, script, event)
    decreases |script|
  {
    if script != [] {
      DoneStays(c, req, l, fs, script[1..], event);
    }
  }

  /** Answers given to a call that is over are not used. */
  lemma {:induction false} RunCallThenDone(c: Config, req: Request, l: Local, fs: FS, used: seq<Choice>, rest: seq<Choice>)
    requires RunCall(c, req, l, fs, used).0.pc.Done?
    ensures RunCall(c, req, l, fs, used + rest) == RunCall(c, req, l, fs, used)
    decreases |used|
  {
    if used == [] {
      assert used + rest == rest;
      DoneStays(c, req, l, fs, rest, EndedContext);
    } else {
      var (l1, fs1) := CallStep(c, req, l, fs, used[0]);
      assert (used + rest)[1..] == used[1..] + rest;
      RunCallThenDone(c, req, l1, fs1, used[1..], rest);
    }
  }

  /** An ending call comes upon nothing but its deferred removal. */
  lemma EndingShowsNothing(c: Config, req: Request, l: Local, fs: FS, ch: Choice, event: Event)
    requires Ending(l.pc) && !event.FailedDiscard?
    ensures !Shows(c, req, l, fs, ch, event)
  {
  }

  lemma {:induction false} EndingStays(c: Config, req: Request, l: Local, fs: FS, script: seq<Choice>, event: Event)
    requires Ending(l.pc)
    ensures var l1 := RunCall(c, req, l, fs, script).0; Ending(l1.pc) && l1.pc.outcome == l.pc.outcome
    ensures !event.FailedDiscard? ==> !Meets(c, req, l, fs, script, event)
    decreases |script|
  {
    if script != [] {
      var (l1, fs1) := CallStep(c, req, l, fs, script[0]);
      if !event.FailedDiscard? {
        EndingShowsNothing(c, req, l, fs, script[0], event);
      }
      EndingStays(c, req, l1, fs1, script[1..], event);
    }
  }

  /** A call ends cancelled, unchanged or refused with some code if and only if one of its steps comes upon the reason for it. */
  lemma {:induction false} OutcomeTellsEvents(c: Config, req: Request, l: Local, fs: FS, script: seq<Choice>, event: Event)
    requires StageOk(c, req, l) && !Ending(l.pc) && Brought(event).Some?
    requires RunCall(c, req, l, fs, script).0.pc.Done?
    ensures RunCall(c, req, l, fs, script).0.pc.outcome == Brought(event).value <==> Meets(c, req, l, fs, script, event)
    decreases |script|
  {
    var (l1, fs1) := CallStep(c, req, l, fs, script[0]);
    StepTells(c, req, l, fs, script[0], event);
    if Ending(l1.pc) {
      EndingStays(c, req, l1, fs1, script[1..], event);
    } else {
      StageKept(c, req, l, fs, script[0]);
      OutcomeTellsEvents(c, req, l1, fs1, script[1..], event);
    }
  }

  /** A commit is durable exactly when the syncs did not fail, and its temporary cleaned exactly when its first removal did not. */
  lemma {:induction false} CommitTellsEvents(c: Config, req: Request, l: Local, fs: FS, script: seq<Choice>)
    requires StageOk(c, req, l) && !Ending(l.pc)
    requires RunCall(c, req, l, fs, script).0.pc.Done?
    ensures var outcome := RunCall(c, req, l, fs, script).0.pc.outcome;
            outcome.Committed? ==>
              && (outcome.created <==> req.mode.Create?)
              && (outcome.durable <==> !Meets(c, req, l, fs, script, FailedSync))
              && (outcome.cleaned <==> (l.pc.SyncCommitted? ==> l.pc.cleaned) && !Meets(c, req, l, fs, script, FailedRemoval))
    decreases |script|
  {
    var (l1, fs1) := CallStep(c, req, l, fs, script[0]);
    CommitTells(c, req, l, fs, script[0]);
    if Ending(l1.pc) {
      EndingStays(c, req, l1, fs1, script[1..], FailedSync);
      EndingStays(c, req, l1, fs1, script[1..], FailedRemoval);
    } else {
      StageKept(c, req, l, fs, script[0]);
      CommitTellsEvents(c, req, l1, fs1, script[1..]);
    }
  }

  /** What a commit's result says of durability and cleanup. */
  predicate ResultTold(req: Request, reply: Reply, syncFailed: bool, removalFailed: bool) {
    reply.Result? && reply.committed ==>
      && reply.changed && (reply.created <==> req.mode.Create?)
      && (reply.durable <==> !syncFailed) && (reply.temporaryCleaned <==> !removalFailed)
      && (reply.ok <==> !syncFailed && !removalFailed)
  }

  /** The reply of a call that found the content in place: it denies any change. */
  predicate DeniesChange(reply: Reply) {
    reply == Undelivered(false)
    || (reply.Result? && reply.ok && !reply.changed && !reply.committed && !reply.created && reply.durable && reply.temporaryCleaned)
  }

  /** What the reply tells, from what the call came upon. */
  ghost predicate ReplyTells(c: Config, req: Request, fs0: FS, script: seq<Choice>, reply: Reply, encodable: bool) {
    && (reply == Cancellation <==> Meets(c, req, START, fs0, script, EndedContext))
    && (forall code :: reply == Problem(code) <==> Meets(c, req, START, fs0, script, Refuses(code)))
    && (DeniesChange(reply) <==> Meets(c, req, START, fs0, script, NothingToChange))
    && (reply.Result? ==> encodable) && (reply.Undelivered? ==> !encodable)
    && ResultTold(req, reply, Meets(c, req, START, fs0, script, FailedSync), Meets(c, req, START, fs0, script, FailedRemoval))
  }

  /** The reply to an outcome says what the outcome says, and nothing else. */
  lemma ReplyMirrors(outcome: Outcome, encodable: bool, req: Request)
    requires outcome.Committed? ==> (outcome.created <==> req.mode.Create?)
    ensures var reply := ReplyTo(outcome, encodable);
            && (reply == Cancellation <==> outcome == Cancelled)
            && (forall code :: reply == Problem(code) <==> outcome == Refused(code))
            && (DeniesChange(reply) <==> outcome == Unchanged)
            && (AdmitsCommit(reply) <==> outcome.Committed?)
            && (reply.Result? ==> encodable) && (reply.Undelivered? ==> !encodable)
            && (outcome.Committed? ==> ResultTold(req, reply, !outcome.durable, !outcome.cleaned))
            && (reply.Result? && reply.committed ==> outcome.Committed?)
  {
  }

  lemma ReplyTellsEvents(c: Config, req: Request, fs0: FS, script: seq<Choice>, encodable: bool)
    requires RunCall(c, req, START, fs0, script).0.pc.Done?
    ensures ReplyTells(c, req, fs0, script, ReplyTo(RunCall(c, req, START, fs0, script).0.pc.outcome, encodable), encodable)
  {
    var outcome := RunCall(c, req, START, fs0, script).0.pc.outcome;
    CommitTellsEvents(c, req, START, fs0, script);
    ReplyMirrors(outcome, encodable, req);
    OutcomeTellsEvents(c, req, START, fs0, script, EndedContext);
    OutcomeTellsEvents(c, req, START, fs0, script, NothingToChange);
    forall code ensures outcome == Refused(code) <==> Meets(c, req, START, fs0, script, Refuses(code)) {
      OutcomeTellsEvents(c, req, START, fs0, script, Refuses(code));
    }
  }

  // ---- how often a call tries ----

  function Count(c: Config, req: Request, l: Local, fs: FS, script: seq<Choice>, event: Event): nat
    decreases |script|
  {
    if script == [] then 0
    else
      var (l1, fs1) := CallStep(c, req, l, fs, script[0]);
      (if Shows(c, req, l, fs, script[0], event) then 1 else 0) + Count(c, req, l1, fs1, script[1..], event)
  }

  lemma {:induction false} NeverMetNeverCounted(c: Config, req: Request, l: Local, fs: FS, script: seq<Choice>, event: Event)
    ensures Count(c, req, l, fs, script, event) == 0 <==> !Meets(c, req, l, fs, script, event)
    decreases |script|
  {
    if script != [] {
      var (l1, fs1) := CallStep(c, req, l, fs, script[0]);
      NeverMetNeverCounted(c, req, l1, fs1, script[1..], event);
    }
  }

  /** How many names, and how many renames, have failed so far. */
  function NamesTried(pc: Pc): nat {
    if pc.CreateTemp? then pc.tries else 0
  }

  function RenamesTried(pc: Pc): nat {
    if pc.Pause? then pc.attempt + 1 else if InAttempt(pc) then pc.attempt else 0
  }

  ghost predicate TriesTold(c: Config, req: Request, l: Local, fs: FS, ch: Choice) {
    var pc := CallStep(c, req, l, fs, ch).0.pc;
    && (InPreflight(pc) || pc.CreateTemp? ==>
          NamesTried(pc) == NamesTried(l.pc) + (if Shows(c, req, l, fs, ch, NameTaken) then 1 else 0))
    && (!InPreflight(pc) && !pc.CreateTemp? ==> !Shows(c, req, l, fs, ch, NameTaken))
    && (!Ending(pc) && !Past(pc) ==>
          RenamesTried(pc) == RenamesTried(l.pc) + (if Shows(c, req, l, fs, ch, RenameFailed) then 1 else 0))
    && (Past(pc) ==> !Shows(c, req, l, fs, ch, RenameFailed))
  }

  lemma TriesStep(c: Config, req: Request, l: Local, fs: FS, ch: Choice)
    requires StageOk(c, req, l) && AttemptsBounded(l.pc)
    ensures TriesTold(c, req, l, fs, ch)
  {
  }

  lemma {:induction false} NoMoreNames(c: Config, req: Request, l: Local, fs: FS, script: seq<Choice>)
    requires StageOk(c, req, l) && AttemptsBounded(l.pc) && !InPreflight(l.pc) && !l.pc.CreateTemp?
    ensures Count(c, req, l, fs, script, NameTaken) == 0 && !Meets(c, req, l, fs, script, NameFailed)
    ensures RunCall(c, req, l, fs, script).0.pc.Done? && !Ending(l.pc) ==>
              RunCall(c, req, l, fs, script).0.pc.outcome != Refused(TemporaryFailed)
    decreases |script|
  {
    if script != [] {
      var (l1, fs1) := CallStep(c, req, l, fs, script[0]);
      StageKept(c, req, l, fs, script[0]);
      OutsidePreflight(c, req, l, fs, script[0]);
      NamesOver(c, req, l, fs, script[0]);
      if Ending(l1.pc) {
        EndingStays(c, req, l1, fs1, script[1..], NameFailed);
      }
      NoMoreNames(c, req, l1, fs1, script[1..]);
    }
  }

  /** Once a temporary is created or the call is ending, no other name is proposed. */
  lemma NamesOver(c: Config, req: Request, l: Local, fs: FS, ch: Choice)
    requires StageOk(c, req, l) && AttemptsBounded(l.pc) && !InPreflight(l.pc) && !l.pc.CreateTemp?
    ensures var pc := CallStep(c, req, l, fs, ch).0.pc;
            && AttemptsBounded(pc) && !pc.CreateTemp?
            && (!Ending(l.pc) && Ending(pc) ==> pc.outcome != Refused(TemporaryFailed))
  {
    if !l.pc.Done? {
      StepDescends(c, req, l, fs, ch);
    }
    StepTells(c, req, l, fs, ch, Refuses(TemporaryFailed));
  }

  /** No temporary could be created exactly when creating one failed, or sixteen proposed names were taken. */
  lemma {:induction false} SixteenNames(c: Config, req: Request, l: Local, fs: FS, script: seq<Choice>)
    requires StageOk(c, req, l) && AttemptsBounded(l.pc) && !Ending(l.pc)
    requires RunCall(c, req, l, fs, script).0.pc.Done?
    ensures RunCall(c, req, l, fs, script).0.pc.outcome == Refused(TemporaryFailed)
            <==> Meets(c, req, l, fs, script, NameFailed) || NamesTried(l.pc) + Count(c, req, l, fs, script, NameTaken) == 16
    decreases |script|
  {
    if !InPreflight(l.pc) && !l.pc.CreateTemp? {
      NoMoreNames(c, req, l, fs, script);
    } else {
      var (l1, fs1) := CallStep(c, req, l, fs, script[0]);
      StageKept(c, req, l, fs, script[0]);
      StepDescends(c, req, l, fs, script[0]);
      StepTells(c, req, l, fs, script[0], Refuses(TemporaryFailed));
      TriesStep(c, req, l, fs, script[0]);
      if Ending(l1.pc) {
        EndingStays(c, req, l1, fs1, script[1..], NameFailed);
        NoMoreNames(c, req, l1, fs1, script[1..]);
      } else if !InPreflight(l1.pc) && !l1.pc.CreateTemp? {
        NoMoreNames(c, req, l1, fs1, script[1..]);
      } else {
        SixteenNames(c, req, l1, fs1, script[1..]);
      }
    }
  }

  lemma {:induction false} NoMoreRenames(c: Config, req: Request, l: Local, fs: FS, script: seq<Choice>)
    requires StageOk(c, req, l) && (Past(l.pc) || Ending(l.pc))
    ensures Count(c, req, l, fs, script, RenameFailed) == 0 && !Meets(c, req, l, fs, script, RenameRejected)
    decreases |script|
  {
    if script != [] {
      var (l1, fs1) := CallStep(c, req, l, fs, script[0]);
      StageKept(c, req, l, fs, script[0]);
      NoMoreRenames(c, req, l1, fs1, script[1..]);
    }
  }

  ghost predicate RenamesTold(c: Config, req: Request, l: Local, fs: FS, ch: Choice) {
    var pc := CallStep(c, req, l, fs, ch).0.pc;
    var failed := if Shows(c, req, l, fs, ch, RenameFailed) then 1 else 0;
    var rejected := Shows(c, req, l, fs, ch, RenameRejected);
    && (Ending(pc) ==> (pc.outcome == Refused(ReplaceFailed) <==> rejected || RenamesTried(l.pc) + failed == 64))
    && (!Ending(pc) ==> !rejected)
    && (!Ending(pc) && !Past(pc) ==> RenamesTried(pc) == RenamesTried(l.pc) + failed)
    && (Past(pc) ==> failed == 0 && RenamesTried(pc) == 0 && RenamesTried(l.pc) < 64)
  }

  lemma RenamesStep(c: Config, req: Request, l: Local, fs: FS, ch: Choice)
    requires StageOk(c, req, l) && AttemptsBounded(l.pc) && !Ending(l.pc)
    ensures RenamesTold(c, req, l, fs, ch)
  {
    StepTells(c, req, l, fs, ch, Refuses(ReplaceFailed));
    TriesStep(c, req, l, fs, ch);
  }

  /**
   A replace is given up exactly when a rename fails in a way that cannot be
   retried, or sixty-four have failed: every other failed rename is followed by
   another attempt, unless that one is refused or cancelled for a reason of its own.
   */
  lemma {:induction false} SixtyFourRenames(c: Config, req: Request, l: Local, fs: FS, script: seq<Choice>)
    requires StageOk(c, req, l) && AttemptsBounded(l.pc) && !Ending(l.pc)
    requires RunCall(c, req, l, fs, script).0.pc.Done?
    ensures RunCall(c, req, l, fs, script).0.pc.outcome == Refused(ReplaceFailed)
            <==> Meets(c, req, l, fs, script, RenameRejected) || RenamesTried(l.pc) + Count(c, req, l, fs, script, RenameFailed) == 64
    decreases |script|
  {
    var (l1, fs1) := CallStep(c, req, l, fs, script[0]);
    assert StageOk(c, req, l1) by { StageKept(c, req, l, fs, script[0]); }
    assert AttemptsBounded(l1.pc) by { StepDescends(c, req, l, fs, script[0]); }
    RenamesStep(c, req, l, fs, script[0]);
    if Ending(l1.pc) {
      EndingStays(c, req, l1, fs1, script[1..], RenameRejected);
      NoMoreRenames(c, req, l1, fs1, script[1..]);
    } else {
      if Past(l1.pc) {
        NoMoreRenames(c, req, l1, fs1, script[1..]);
      }
      SixtyFourRenames(c, req, l1, fs1, script[1..]);
    }
  }
}
