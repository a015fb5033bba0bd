/** Complete calls, one after another, with no other writer: what each does, and what a series of them can do. */
module ReplaceSerial {
  import opened Common
  import opened Digests
  import opened ReplaceCall
  import opened ReplaceSafety
  import opened ReplaceEvents

  /** The state in which a call may commit. */
  predicate Ready(c: Config, req: Request, fs: FS) {
    if req.mode.Create? then req.path !in fs.names else Fresh(c, req, fs) && !SameDigest(c, req)
  }

  ghost predicate Leftover(fs0: FS, base: map<Name, Node>, names: map<Name, Node>, own: Ino) {
    exists temp :: temp !in base && temp !in fs0.names && names == base[temp := File(own)]
  }

  ghost predicate OldContentsKept(fs0: FS, fs: FS) {
    forall i :: i in fs0.files ==> i in fs.files && fs.files[i] == fs0.files[i]
  }

  /** Every old content is intact, and the entries are the old ones, plus this call's temporary if and only if it is left behind. */
  ghost predicate NothingDone(fs0: FS, fs: FS, left: bool) {
    && OldContentsKept(fs0, fs)
    && if left then exists own :: own !in fs0.files && Leftover(fs0, fs0.names, fs.names, own) else fs.names == fs0.names
  }

  /** Every old content is intact, and the target alone is moved to a new inode holding the requested content. */
  ghost predicate TargetReplaced(req: Request, fs0: FS, fs: FS, left: bool, own: Ino) {
    && OldContentsKept(fs0, fs)
    && own !in fs0.files && own in fs.files && fs.files[own] == req.content
    && var moved := fs0.names[req.path := File(own)];
       if left then Leftover(fs0, moved, fs.names, own) else fs.names == moved
  }

  /** All or nothing; `left` says whether the call's own temporary is still named. */
  ghost predicate Effect(c: Config, req: Request, fs0: FS, fs: FS, outcome: Outcome, left: bool) {
    if outcome.Committed? then
      && Ready(c, req, fs0) && outcome.created == req.mode.Create? && (left ==> !outcome.cleaned)
      && exists own :: TargetReplaced(req, fs0, fs, left, own)
    else NothingDone(fs0, fs, left)
  }

  /** The entries a call that is over leaves, its temporary aside. */
  function Named(req: Request, fs0: FS, l: Local): map<Name, Node> {
    if Past(l.pc) then WithTarget(fs0.names, req, l) else fs0.names
  }

  /** A call that ends without a deferred removal has no temporary to remove. */
  lemma NothingToDiscard(c: Config, req: Request, l: Local, fs: FS, ch: Choice)
    requires !l.pc.Done? && !l.pc.Discard? && CallStep(c, req, l, fs, ch).0.pc.Done?
    ensures CallStep(c, req, l, fs, ch).0.temp.None?
  {
  }

  lemma DiscardLeaves(c: Config, req: Request, fs0: FS, l: Local, fs: FS, ch: Choice)
    requires Alone(c, req, fs0, l, fs) && l.pc.Discard?
    ensures var (l1, fs1) := CallStep(c, req, l, fs, ch);
            && fs1.names == (if ch.fault then WithTemp(Named(req, fs0, l1), l1) else Named(req, fs0, l1))
            && l1.temp.Some? && l1.temp.value !in Named(req, fs0, l1)
  {
    assert WithTemp(Named(req, fs0, l), l) - {l.temp.value} == Named(req, fs0, l);
  }

  lemma StepLeaves(c: Config, req: Request, fs0: FS, l: Local, fs: FS, ch: Choice)
    requires Alone(c, req, fs0, l, fs) && !l.pc.Done? && CallStep(c, req, l, fs, ch).0.pc.Done?
    ensures var (l1, fs1) := CallStep(c, req, l, fs, ch);
            && fs1.names == (if Shows(c, req, l, fs, ch, FailedDiscard) then WithTemp(Named(req, fs0, l1), l1) else Named(req, fs0, l1))
            && (Shows(c, req, l, fs, ch, FailedDiscard) ==> l1.temp.Some? && l1.temp.value !in Named(req, fs0, l1))
  {
    if l.pc.Discard? {
      DiscardLeaves(c, req, fs0, l, fs, ch);
    } else {
      var (l1, fs1) := CallStep(c, req, l, fs, ch);
      assert l1.temp.None? by { NothingToDiscard(c, req, l, fs, ch); }
      assert AloneNames(c, req, fs0, l1, fs1) by { AloneKept(c, req, fs0, l, fs, ch); }
    }
  }

  /** The call's own temporary is still named at the end if and only if its deferred removal failed. */
  lemma {:induction false} TemporaryStaysExactly(c: Config, req: Request, fs0: FS, l: Local, fs: FS, script: seq<Choice>)
    requires Alone(c, req, fs0, l, fs) && !l.pc.Done? && RunCall(c, req, l, fs, script).0.pc.Done?
    ensures var (l1, fs1) := RunCall(c, req, l, fs, script);
            var left := Meets(c, req, l, fs, script, FailedDiscard);
            && Alone(c, req, fs0, l1, fs1)
            && fs1.names == (if left then WithTemp(Named(req, fs0, l1), l1) else Named(req, fs0, l1))
            && (left ==> l1.temp.Some? && l1.temp.value !in Named(req, fs0, l1))
    decreases |script|
  {
    var (l1, fs1) := CallStep(c, req, l, fs, script[0]);
    AloneKept(c, req, fs0, l, fs, script[0]);
    if l1.pc.Done? {
      StepLeaves(c, req, fs0, l, fs, script[0]);
      DoneStays(c, req, l1, fs1, script[1..], FailedDiscard);
    } else {
      TemporaryStaysExactly(c, req, fs0, l1, fs1, script[1..]);
    }
  }

  /**
   All or nothing: a call that does not report a commit has changed nothing, one
   that does has replaced exactly its target; either way its temporary is still
   named if and only if the deferred removal failed.
   */
  lemma CallIsAtomic(c: Config, req: Request, fs0: FS, script: seq<Choice>)
    requires WellFormed(fs0)
    requires RunCall(c, req, START, fs0, script).0.pc.Done?
    ensures var (l, fs) := RunCall(c, req, START, fs0, script);
            && WellFormed(fs)
            && Effect(c, req, fs0, fs, l.pc.outcome, Meets(c, req, START, fs0, script, FailedDiscard))
            && l.commits == (if l.pc.outcome.Committed? then 1 else 0)
            && (l.pc.outcome.Unchanged? ==> SameDigest(c, req) && Fresh(c, req, fs0) && fs.names == fs0.names)
  {
    AloneAtStart(c, req, fs0);
    TemporaryStaysExactly(c, req, fs0, START, fs0, script);
    var (l, fs) := RunCall(c, req, START, fs0, script);
    var left := Meets(c, req, START, fs0, script, FailedDiscard);
    if left {
      assert fs.names == Named(req, fs0, l)[l.temp.value := File(l.own.value)];
      assert Leftover(fs0, Named(req, fs0, l), fs.names, l.own.value);
    }
    if l.pc.outcome.Committed? {
      assert TargetReplaced(req, fs0, fs, left, l.own.value);
    }
  }

  /** A call given these answers is over, with this effect. */
  ghost predicate EndsAs(c: Config, req: Request, fs0: FS, script: seq<Choice>, l: Local, fs: FS) {
    && RunCall(c, req, START, fs0, script) == (l, fs) && l.pc.Done? && WellFormed(fs)
    && Effect(c, req, fs0, fs, l.pc.outcome, Meets(c, req, START, fs0, script, FailedDiscard))
    && (l.pc.outcome.Unchanged? ==> Fresh(c, req, fs0) && SameDigest(c, req))
  }

  lemma CallEnds(c: Config, req: Request, fs0: FS, used: seq<Choice>, rest: seq<Choice>, l: Local, fs: FS)
    requires WellFormed(fs0) && RunCall(c, req, START, fs0, used) == (l, fs) && l.pc.Done?
    ensures EndsAs(c, req, fs0, used + rest, l, fs)
    ensures l.pc.outcome.Committed? ==> Ready(c, req, fs0)
  {
    RunCallThenDone(c, req, START, fs0, used, rest);
    CallIsAtomic(c, req, fs0, used + rest);
  }

  /** What a reply admits is what happened: a commit is reported, or left uncertain, exactly when one took place. */
  lemma ReplyTellsCommit(c: Config, req: Request, fs0: FS, script: seq<Choice>, encodable: bool)
    requires WellFormed(fs0)
    requires RunCall(c, req, START, fs0, script).0.pc.Done?
    ensures var l := RunCall(c, req, START, fs0, script).0;
            AdmitsCommit(ReplyTo(l.pc.outcome, encodable)) <==> l.commits == 1
  {
    CallIsAtomic(c, req, fs0, script);
  }

  // ---- a benign environment: the call commits exactly when it may ----

  predicate Benign(req: Request, fs0: FS, ch: Choice) {
    !ch.cancelled && !ch.fault && ch.name !in fs0.names && ch.name != req.path
  }

  /** A ready call in a benign environment, on its way to a clean commit. */
  ghost predicate OnCourse(c: Config, req: Request, fs0: FS, l: Local, fs: FS) {
    && Alone(c, req, fs0, l, fs) && Ready(c, req, fs0) && AttemptsBounded(l.pc)
    && !l.pc.LinkRefused? && !l.pc.Pause? && !l.pc.Discard?
    && (l.pc.CreateTemp? ==> l.pc.tries == 0)
    && (l.pc.PreRead? ==> fs0.names[req.path] == File(l.pc.ino))
    && (l.pc.SyncCommitted? ==> l.pc.cleaned)
    && (l.pc.Done? ==> l.pc.outcome == Committed(req.mode.Create?, true, true))
    && (l.temp.Some? && !Past(l.pc) ==> l.temp.value != req.path)
  }

  lemma OnCourseEarly(c: Config, req: Request, fs0: FS, l: Local, fs: FS, ch: Choice)
    requires OnCourse(c, req, fs0, l, fs) && Benign(req, fs0, ch) && (InPreflight(l.pc) || InTemporary(l.pc))
    ensures OnCourse(c, req, fs0, CallStep(c, req, l, fs, ch).0, CallStep(c, req, l, fs, ch).1)
  {
    AloneKept(c, req, fs0, l, fs, ch);
  }

  lemma OnCourseLate(c: Config, req: Request, fs0: FS, l: Local, fs: FS, ch: Choice)
    requires OnCourse(c, req, fs0, l, fs) && Benign(req, fs0, ch) && !InPreflight(l.pc) && !InTemporary(l.pc)
    ensures OnCourse(c, req, fs0, CallStep(c, req, l, fs, ch).0, CallStep(c, req, l, fs, ch).1)
  {
    AloneKept(c, req, fs0, l, fs, ch);
    assert req.mode.Replace? ==> fs.names[req.path] == fs0.names[req.path] || Past(l.pc);
  }

  lemma {:induction false} BenignRunCommits(c: Config, req: Request, fs0: FS, l: Local, fs: FS, script: seq<Choice>)
    requires OnCourse(c, req, fs0, l, fs) && Rank(l.pc) <= |script|
    requires forall i :: 0 <= i < |script| ==> Benign(req, fs0, script[i])
    ensures RunCall(c, req, l, fs, script).0.pc == Done(Committed(req.mode.Create?, true, true))
    decreases |script|
  {
    if script != [] {
      var (l1, fs1) := CallStep(c, req, l, fs, script[0]);
      assert OnCourse(c, req, fs0, l1, fs1) by {
        if InPreflight(l.pc) || InTemporary(l.pc) {
          OnCourseEarly(c, req, fs0, l, fs, script[0]);
        } else {
          OnCourseLate(c, req, fs0, l, fs, script[0]);
        }
      }
      if !l.pc.Done? {
        StepDescends(c, req, l, fs, script[0]);
      }
      BenignRunCommits(c, req, fs0, l1, fs1, script[1..]);
    }
  }

  /** Left alone by everyone and failed by nothing, a call commits if and only if it is ready when it starts. */
  lemma CommitsExactlyWhenReady(c: Config, req: Request, fs0: FS, script: seq<Choice>)
    requires WellFormed(fs0) && |script| >= Rank(OpenRoot)
    requires forall i :: 0 <= i < |script| ==> Benign(req, fs0, script[i])
    ensures var pc := RunCall(c, req, START, fs0, script).0.pc;
            pc.Done? && (pc.outcome.Committed? <==> Ready(c, req, fs0))
  {
    AloneAtStart(c, req, fs0);
    if Ready(c, req, fs0) {
      BenignRunCommits(c, req, fs0, START, fs0, script);
    } else {
      EveryCallEnds(c, req, START, fs0, script);
      CallIsAtomic(c, req, fs0, script);
    }
  }

  /** Whatever the environment answers, a call is over after at most 360 steps. */
  lemma {:induction false} EveryCallEnds(c: Config, req: Request, l: Local, fs: FS, script: seq<Choice>)
    requires AttemptsBounded(l.pc) && Rank(l.pc) <= |script|
    ensures RunCall(c, req, l, fs, script).0.pc.Done?
    decreases |script|
  {
    if script != [] {
      if !l.pc.Done? {
        StepDescends(c, req, l, fs, script[0]);
      }
      var (l1, fs1) := CallStep(c, req, l, fs, script[0]);
      EveryCallEnds(c, req, l1, fs1, script[1..]);
    }
  }

  predicate ComparesEqual(req: Request, fs: FS, l: Local) {
    match l.pc
    case OpenRoot => true
    case PreLstat => true
    case PreOpen => true
    case PreRead(ino) => req.path in fs.names && fs.names[req.path] == File(ino)
    case AfterPreflight(same) => same
    case Done(outcome) => outcome == Unchanged
    case _ => false
  }

  lemma {:induction false} EqualRun(c: Config, req: Request, fs: FS, l: Local, script: seq<Choice>)
    requires Fresh(c, req, fs) && SameDigest(c, req) && ComparesEqual(req, fs, l) && l.temp.None?
    requires forall i :: 0 <= i < |script| ==> Benign(req, fs, script[i])
    ensures var (l1, fs1) := RunCall(c, req, l, fs, script); fs1 == fs && ComparesEqual(req, fs, l1)
    decreases |script|
  {
    if script != [] {
      var (l1, fs1) := CallStep(c, req, l, fs, script[0]);
      assert fs1 == fs && ComparesEqual(req, fs, l1) && l1.temp.None?;
      EqualRun(c, req, fs, l1, script[1..]);
    }
  }

  /** A fresh expectation is always accepted: the call commits, or changes nothing because nothing is to be changed. */
  lemma FreshExpectationIsAccepted(c: Config, req: Request, fs0: FS, script: seq<Choice>)
    requires WellFormed(fs0) && Fresh(c, req, fs0) && |script| >= Rank(OpenRoot)
    requires forall i :: 0 <= i < |script| ==> Benign(req, fs0, script[i])
    ensures var (l, fs) := RunCall(c, req, START, fs0, script);
            && l.pc == Done(if SameDigest(c, req) then Unchanged else Committed(false, true, true))
            && (SameDigest(c, req) ==> fs == fs0)
  {
    AloneAtStart(c, req, fs0);
    if SameDigest(c, req) {
      EveryCallEnds(c, req, START, fs0, script);
      EqualRun(c, req, fs0, START, script);
    } else {
      BenignRunCommits(c, req, fs0, START, fs0, script);
    }
  }

  // ---- what temporary_cleaned tells ----

  /** The call has committed and no temporary of its own is named any more. */
  ghost predicate NoneLeft(req: Request, fs0: FS, l: Local, fs: FS) {
    l.own.Some? && fs.names == fs0.names[req.path := File(l.own.value)]
  }

  /**
   A committed call reports its temporary as cleaned exactly when its first removal
   succeeded, and none is left exactly when the deferred one did not fail: the flag
   is right if and only if the first removal succeeded or the deferred one failed too.
   */
  lemma CleanedFlagIsRightExactly(c: Config, req: Request, fs0: FS, script: seq<Choice>)
    requires WellFormed(fs0)
    requires var pc := RunCall(c, req, START, fs0, script).0.pc; pc.Done? && pc.outcome.Committed?
    ensures var (l, fs) := RunCall(c, req, START, fs0, script);
            var failed := Meets(c, req, START, fs0, script, FailedRemoval);
            var left := Meets(c, req, START, fs0, script, FailedDiscard);
            && (l.pc.outcome.cleaned <==> !failed)
            && (NoneLeft(req, fs0, l, fs) <==> !left)
            && ((l.pc.outcome.cleaned <==> NoneLeft(req, fs0, l, fs)) <==> !failed || left)
  {
    AloneAtStart(c, req, fs0);
    CommitTellsEvents(c, req, START, fs0, script);
    TemporaryStaysExactly(c, req, fs0, START, fs0, script);
    var (l, fs) := RunCall(c, req, START, fs0, script);
    if Meets(c, req, START, fs0, script, FailedDiscard) {
      assert l.temp.value in fs.names && l.temp.value !in Named(req, fs0, l);
    }
  }

  /** Where a benign call is stopped below: creation about to remove its temporary, an attempt about to read. */
  predicate Halfway(req: Request, pc: Pc) {
    if req.mode.Create? then pc.RemoveTemp? else pc.TryRead?
  }

  predicate NotYetHalfway(pc: Pc) {
    !Past(pc) && !pc.TryRead? && !pc.TryLstat? && !pc.TryRename?
  }

  /** A benign environment takes every ready call there. */
  lemma {:induction false} CourseReaches(c: Config, req: Request, fs0: FS, l: Local, fs: FS, ch: Choice) returns (script: seq<Choice>)
    requires OnCourse(c, req, fs0, l, fs) && Benign(req, fs0, ch) && (NotYetHalfway(l.pc) || Halfway(req, l.pc))
    ensures var (l1, fs1) := RunCall(c, req, l, fs, script); OnCourse(c, req, fs0, l1, fs1) && Halfway(req, l1.pc)
    decreases Rank(l.pc)
  {
    script := [];
    if !Halfway(req, l.pc) {
      var (l1, fs1) := CallStep(c, req, l, fs, ch);
      StepDescends(c, req, l, fs, ch);
      if InPreflight(l.pc) || InTemporary(l.pc) {
        OnCourseEarly(c, req, fs0, l, fs, ch);
      } else {
        OnCourseLate(c, req, fs0, l, fs, ch);
      }
      var rest := CourseReaches(c, req, fs0, l1, fs1, ch);
      script := [ch] + rest;
      assert script[1..] == rest;
    }
  }

  lemma LateRemoval(c: Config, req: Request, l: Local, fs: FS, ch: Choice)
    requires req.mode.Create? && l.pc.RemoveTemp? && l.temp.Some? && !ch.fault
    ensures var (l1, fs1) := CallStep(c, req, l, fs, ch.(fault := true));
            var (l2, fs2) := CallStep(c, req, l1, fs1, ch);
            CallStep(c, req, l2, fs2, ch) == (l.(pc := Done(Committed(true, false, true))), Remove(fs, l.temp.value))
  {
  }

  /**
   The flag can be wrong wherever a create can succeed: its first removal fails,
   the deferred one does not, and the reply denies a cleanup that has taken place.
   */
  lemma CleanedFlagCanBeWrong(c: Config, req: Request, fs0: FS, ch: Choice) returns (script: seq<Choice>)
    requires WellFormed(fs0) && req.mode.Create? && Ready(c, req, fs0) && Benign(req, fs0, ch)
    ensures var (l, fs) := RunCall(c, req, START, fs0, script);
            && l.pc == Done(Committed(true, false, true)) && NoneLeft(req, fs0, l, fs)
            && ReplyTo(l.pc.outcome, true) == Result(false, true, true, true, true, false)
  {
    AloneAtStart(c, req, fs0);
    var front := CourseReaches(c, req, fs0, START, fs0, ch);
    var failing := ch.(fault := true);
    var (l0, fs1) := RunCall(c, req, START, fs0, front);
    RunCallAppend(c, req, START, fs0, front, failing);
    RunCallAppend(c, req, START, fs0, front + [failing], ch);
    RunCallAppend(c, req, START, fs0, front + [failing] + [ch], ch);
    LateRemoval(c, req, l0, fs1, ch);
    script := front + [failing] + [ch] + [ch];
    var moved := fs0.names[req.path := File(l0.own.value)];
    assert l0.temp.value !in moved && fs1.names == moved[l0.temp.value := File(l0.own.value)];
  }

  // ---- a series of calls ----

  datatype Entry = Entry(req: Request, script: seq<Choice>)

  function RunEntry(c: Config, fs: FS, e: Entry): (Local, FS) {
    RunCall(c, e.req, START, fs, e.script)
  }

  function Serial(c: Config, fs: FS, log: seq<Entry>): FS
    decreases |log|
  {
    if log == [] then fs else Serial(c, RunEntry(c, fs, log[0]).1, log[1..])
  }

  /** Every call of the series runs to its end. */
  predicate Complete(c: Config, fs: FS, log: seq<Entry>)
    decreases |log|
  {
    log == [] || (RunEntry(c, fs, log[0]).0.pc.Done? && Complete(c, RunEntry(c, fs, log[0]).1, log[1..]))
  }

  predicate CommitsNow(c: Config, fs: FS, e: Entry) {
    var pc := RunEntry(c, fs, e).0.pc;
    pc.Done? && pc.outcome.Committed?
  }

  function CommitsOn(c: Config, fs: FS, log: seq<Entry>, path: Name): nat
    decreases |log|
  {
    if log == [] then 0
    else (if log[0].req.path == path && CommitsNow(c, fs, log[0]) then 1 else 0)
         + CommitsOn(c, RunEntry(c, fs, log[0]).1, log[1..], path)
  }

  /** A complete call leaves an existing entry and its content alone unless it commits onto that entry. */
  lemma EntryKeepsOthers(c: Config, fs: FS, e: Entry, n: Name)
    requires WellFormed(fs) && RunEntry(c, fs, e).0.pc.Done?
    requires n in fs.names && !(CommitsNow(c, fs, e) && n == e.req.path)
    ensures var fs1 := RunEntry(c, fs, e).1;
            && WellFormed(fs1)
            && n in fs1.names && fs1.names[n] == fs.names[n]
            && (fs.names[n].File? ==> fs1.files[fs.names[n].ino] == fs.files[fs.names[n].ino])
  {
    CallIsAtomic(c, e.req, fs, e.script);
  }

  /** The state a committed request leaves behind, as far as that request is concerned. */
  predicate Spent(c: Config, req: Request, fs: FS) {
    req.path in fs.names && (req.mode.Replace? ==> !Fresh(c, req, fs))
  }

  lemma CommitSpends(c: Config, fs: FS, e: Entry)
    requires WellFormed(fs) && CommitsNow(c, fs, e)
    ensures Spent(c, e.req, RunEntry(c, fs, e).1)
  {
    CallIsAtomic(c, e.req, fs, e.script);
    var fs1 := RunEntry(c, fs, e).1;
    var own :| TargetReplaced(e.req, fs, fs1, Meets(c, e.req, START, fs, e.script, FailedDiscard), own);
    assert fs1.names[e.req.path] == File(own);
  }

  /** The same request again, or any request for another path. */
  predicate Harmless(req: Request, e: Entry) {
    e.req.path == req.path ==> e.req.mode == req.mode
  }

  lemma SpentStays(c: Config, req: Request, fs: FS, e: Entry)
    requires WellFormed(fs) && RunEntry(c, fs, e).0.pc.Done?
    requires Spent(c, req, fs) && Harmless(req, e)
    ensures WellFormed(RunEntry(c, fs, e).1) && Spent(c, req, RunEntry(c, fs, e).1)
    ensures !(e.req.path == req.path && CommitsNow(c, fs, e))
  {
    CallIsAtomic(c, e.req, fs, e.script);
    if e.req.path == req.path {
      assert e.req.mode.Replace? ==> (Fresh(c, e.req, fs) <==> Fresh(c, req, fs));
    }
    EntryKeepsOthers(c, fs, e, req.path);
  }

  lemma {:induction false} SpentForever(c: Config, req: Request, fs: FS, log: seq<Entry>)
    requires WellFormed(fs) && Complete(c, fs, log) && Spent(c, req, fs)
    requires forall i :: 0 <= i < |log| ==> Harmless(req, log[i])
    ensures CommitsOn(c, fs, log, req.path) == 0
    ensures Spent(c, req, Serial(c, fs, log))
    decreases |log|
  {
    if log != [] {
      SpentStays(c, req, fs, log[0]);
      SpentForever(c, req, RunEntry(c, fs, log[0]).1, log[1..]);
    }
  }

  /**
   Idempotent replay: after a committed call, whatever it reported about
   durability or cleanup, no number of repetitions commits again, with calls for
   other paths in between or not.
   */
  lemma ReplayCommitsNothing(c: Config, fs: FS, e: Entry, log: seq<Entry>)
    requires WellFormed(fs) && CommitsNow(c, fs, e)
    requires Complete(c, RunEntry(c, fs, e).1, log)
    requires forall i :: 0 <= i < |log| ==> Harmless(e.req, log[i])
    ensures CommitsOn(c, RunEntry(c, fs, e).1, log, e.req.path) == 0
  {
    CallIsAtomic(c, e.req, fs, e.script);
    CommitSpends(c, fs, e);
    SpentForever(c, e.req, RunEntry(c, fs, e).1, log);
  }

  /** A batch of calls that name the same path and the same expectation commits at most once. */
  lemma {:induction false} BatchCommitsOnce(c: Config, fs: FS, log: seq<Entry>, path: Name, mode: Mode)
    requires WellFormed(fs) && Complete(c, fs, log)
    requires forall i :: 0 <= i < |log| && log[i].req.path == path ==> log[i].req.mode == mode
    ensures CommitsOn(c, fs, log, path) <= 1
    decreases |log|
  {
    if log != [] {
      CallIsAtomic(c, log[0].req, fs, log[0].script);
      if log[0].req.path == path && CommitsNow(c, fs, log[0]) {
        ReplayCommitsNothing(c, fs, log[0], log[1..]);
      } else {
        BatchCommitsOnce(c, RunEntry(c, fs, log[0]).1, log[1..], path, mode);
      }
    }
  }

  /** The target holds content with this digest. */
  predicate Holds(c: Config, fs: FS, path: Name, digest: bytes) {
    && path in fs.names && fs.names[path].File? && fs.names[path].ino in fs.files
    && DigestText(c, fs.files[fs.names[path].ino]) == digest
  }

  /** While nobody commits onto the path its digest stays; the next commit onto it is a replace that names it. */
  lemma {:induction false} NextCommitNamesDigest(c: Config, fs: FS, log: seq<Entry>, path: Name, digest: bytes, last: Entry)
    requires WellFormed(fs) && Complete(c, fs, log) && Holds(c, fs, path, digest)
    requires CommitsOn(c, fs, log, path) == 0
    requires last.req.path == path && CommitsNow(c, Serial(c, fs, log), last)
    ensures last.req.mode == Replace(digest)
    decreases |log|
  {
    if log == [] {
      CallIsAtomic(c, last.req, fs, last.script);
    } else {
      EntryKeepsOthers(c, fs, log[0], path);
      NextCommitNamesDigest(c, RunEntry(c, fs, log[0]).1, log[1..], path, digest, last);
    }
  }

  /** Hash chain: of two consecutive commits on a path, the second expects exactly the digest the first left. */
  lemma CommitsFormHashChain(c: Config, fs: FS, first: Entry, between: seq<Entry>, second: Entry)
    requires WellFormed(fs) && CommitsNow(c, fs, first)
    requires var fs1 := RunEntry(c, fs, first).1;
             && Complete(c, fs1, between) && CommitsOn(c, fs1, between, first.req.path) == 0
             && second.req.path == first.req.path && CommitsNow(c, Serial(c, fs1, between), second)
    ensures second.req.mode == Replace(DigestText(c, first.req.content))
  {
    CallIsAtomic(c, first.req, fs, first.script);
    var fs1 := RunEntry(c, fs, first).1;
    var own :| TargetReplaced(first.req, fs, fs1, Meets(c, first.req, START, fs, first.script, FailedDiscard), own);
    assert fs1.names[first.req.path] == File(own);
    NextCommitNamesDigest(c, fs1, between, first.req.path, DigestText(c, first.req.content), second);
  }

  // ---- what a replay is told ----

  /** Within the bound and holding another digest: the read cannot fail as too large. */
  predicate HoldsOther(c: Config, req: Request, fs: FS) {
    && req.mode.Replace? && req.path in fs.names && fs.names[req.path].File?
    && fs.names[req.path].ino in fs.files
    && |fs.files[fs.names[req.path].ino]| <= c.maxWrite
    && DigestText(c, fs.files[fs.names[req.path].ino]) != req.mode.expected
  }

  predicate RefusedAsStale(req: Request, fs0: FS, l: Local) {
    match l.pc
    case OpenRoot => true
    case PreLstat => true
    case PreOpen => true
    case PreRead(ino) => req.path in fs0.names && fs0.names[req.path] == File(ino)
    case Done(outcome) =>
      outcome.Refused? && outcome.code in {RootUnavailable, PathUnavailable, ReadFailed, Stale}
    case _ => false
  }

  lemma {:induction false} StaleRun(c: Config, req: Request, fs: FS, l: Local, script: seq<Choice>)
    requires HoldsOther(c, req, fs) && RefusedAsStale(req, fs, l) && l.temp.None?
    ensures var (l1, fs1) := RunCall(c, req, l, fs, script);
            fs1 == fs && RefusedAsStale(req, fs, l1)
    ensures (forall i :: 0 <= i < |script| ==> !script[i].fault) && (l.pc.Done? ==> l.pc.outcome == Refused(Stale)) ==>
              var pc := RunCall(c, req, l, fs, script).0.pc; pc.Done? ==> pc.outcome == Refused(Stale)
    decreases |script|
  {
    if script != [] {
      var (l1, fs1) := CallStep(c, req, l, fs, script[0]);
      assert fs1 == fs && RefusedAsStale(req, fs, l1) && l1.temp.None?;
      StaleRun(c, req, fs, l1, script[1..]);
    }
  }

  /**
   Replaying a committed replace at once changes nothing at all and is told
   "stale", unless opening or reading fails; it is never told that the file has
   become too large, because the committed content passed the write bound.
   */
  lemma ReplayIsStale(c: Config, fs: FS, e: Entry, script: seq<Choice>)
    requires WellFormed(fs) && CommitsNow(c, fs, e) && e.req.mode.Replace? && |e.req.content| <= c.maxWrite
    requires RunCall(c, e.req, START, RunEntry(c, fs, e).1, script).0.pc.Done?
    ensures var fs1 := RunEntry(c, fs, e).1;
            var (l2, fs2) := RunCall(c, e.req, START, fs1, script);
            && fs2 == fs1
            && l2.pc.outcome.Refused? && l2.pc.outcome.code in {RootUnavailable, PathUnavailable, ReadFailed, Stale}
            && ((forall i :: 0 <= i < |script| ==> !script[i].fault) ==> l2.pc.outcome == Refused(Stale))
  {
    CallIsAtomic(c, e.req, fs, e.script);
    var fs1 := RunEntry(c, fs, e).1;
    var own :| TargetReplaced(e.req, fs, fs1, Meets(c, e.req, START, fs, e.script, FailedDiscard), own);
    assert fs1.names[e.req.path] == File(own);
    StaleRun(c, e.req, fs1, START, script);
  }
}
