/** What each step of a replace call keeps, whatever other writers do in between. */
module ReplaceSafety {
  import opened Common
  import opened Digests
  import opened ReplaceCall

  /** The request asks for the content that its expected digest already names. */
  predicate SameDigest(c: Config, req: Request) {
    req.mode.Replace? && req.mode.expected == DigestText(c, req.content)
  }

  predicate HasTemp(pc: Pc) {
    || pc.WriteTemp? || pc.SyncTemp? || pc.Prepared? || pc.CheckCreate? || pc.LinkTarget? || pc.LinkRefused?
    || pc.TryOpen? || pc.TryRead? || pc.TryLstat? || pc.TryRename? || pc.Pause? || pc.RemoveTemp? || pc.Discard?
  }

  predicate Early(pc: Pc) {
    pc.OpenRoot? || pc.PreLstat? || pc.PreOpen? || pc.PreRead? || pc.AfterPreflight? || pc.CreateTemp?
  }

  predicate Ending(pc: Pc) {
    pc.Discard? || pc.Done?
  }

  /** The rename or link has succeeded. */
  predicate Past(pc: Pc) {
    pc.RemoveTemp? || pc.SyncCommitted? || (Ending(pc) && pc.outcome.Committed?)
  }

  predicate Mutating(pc: Pc) {
    pc.CreateTemp? || pc.SyncCommitted? || (HasTemp(pc) && !pc.Discard?) || Past(pc)
  }

  predicate PcFits(req: Request, pc: Pc) {
    if req.mode.Create? then
      !pc.PreOpen? && !pc.PreRead? && !pc.TryOpen? && !pc.TryRead? && !pc.TryLstat? && !pc.TryRename? && !pc.Pause?
    else !pc.CheckCreate? && !pc.LinkTarget? && !pc.LinkRefused? && !pc.RemoveTemp?
  }

  predicate StageOk(c: Config, req: Request, l: Local) {
    && PcFits(req, l.pc)
    && (HasTemp(l.pc) ==> l.temp.Some? && l.own.Some?)
    && (Early(l.pc) ==> l.temp.None? && l.own.None?)
    && l.commits == (if Past(l.pc) then 1 else 0)
    && (l.pc.AfterPreflight? ==> l.pc.same == SameDigest(c, req))
    && (Mutating(l.pc) ==> !SameDigest(c, req))
    && (l.pc.SyncCommitted? ==> (l.pc.cleaned <==> l.temp.None?) && l.own.Some?)
    && (Ending(l.pc) && l.pc.outcome.Unchanged? ==> SameDigest(c, req) && l.temp.None? && l.own.None?)
    && (Ending(l.pc) && l.pc.outcome.Committed? ==>
          l.pc.outcome.created == req.mode.Create? && (l.pc.outcome.cleaned <==> l.temp.None?) && l.own.Some?)
  }

  predicate StageStep(c: Config, req: Request, l: Local, fs: FS, ch: Choice) {
    var l1 := CallStep(c, req, l, fs, ch).0;
    StageOk(c, req, l1) && (Past(l1.pc) <==> Past(l.pc) || Commits(req, l, fs, ch))
  }

  lemma StageKeptEarly(c: Config, req: Request, l: Local, fs: FS, ch: Choice)
    requires StageOk(c, req, l) && (InPreflight(l.pc) || InTemporary(l.pc))
    ensures StageStep(c, req, l, fs, ch)
  {
  }

  lemma StageKeptCommitting(c: Config, req: Request, l: Local, fs: FS, ch: Choice)
    requires StageOk(c, req, l) && (InCreate(l.pc) || InAttempt(l.pc))
    ensures StageStep(c, req, l, fs, ch)
  {
  }

  /** A step stays within the protocol, and passes the commit exactly by committing. */
  lemma StageKept(c: Config, req: Request, l: Local, fs: FS, ch: Choice)
    requires StageOk(c, req, l)
    ensures StageOk(c, req, CallStep(c, req, l, fs, ch).0)
    ensures Past(CallStep(c, req, l, fs, ch).0.pc) <==> Past(l.pc) || Commits(req, l, fs, ch)
  {
    if InPreflight(l.pc) || InTemporary(l.pc) {
      StageKeptEarly(c, req, l, fs, ch);
    } else if InCreate(l.pc) || InAttempt(l.pc) {
      StageKeptCommitting(c, req, l, fs, ch);
    } else {
      assert StageStep(c, req, l, fs, ch);
    }
  }

  ghost predicate OwnExists(l: Local, fs: FS) {
    l.own.Some? ==> l.own.value in fs.files
  }

  ghost predicate Footprint(c: Config, req: Request, l: Local, fs: FS, ch: Choice) {
    var (l1, fs1) := CallStep(c, req, l, fs, ch);
    && WellFormed(fs1) && OwnExists(l1, fs1)
    && fs.next <= fs1.next && fs.files.Keys <= fs1.files.Keys
    && (forall i :: i in fs.files && l.own != Some(i) ==> fs1.files[i] == fs.files[i])
    && (forall n :: n in fs.names && l.temp != Some(n) && !(Commits(req, l, fs, ch) && n == req.path) ==>
          n in fs1.names && fs1.names[n] == fs.names[n])
    && (forall n :: n in fs1.names && n !in fs.names ==>
          (l.pc.CreateTemp? && l1.temp == Some(n)) || (Commits(req, l, fs, ch) && n == req.path))
  }

  lemma EarlyFootprint(c: Config, req: Request, l: Local, fs: FS, ch: Choice)
    requires StageOk(c, req, l) && WellFormed(fs) && OwnExists(l, fs) && (InPreflight(l.pc) || InTemporary(l.pc))
    ensures Footprint(c, req, l, fs, ch)
  {
  }

  /** A step leaves every entry alone but the call's temporary and, when it commits, the target; and every content but its own. */
  lemma StepFootprint(c: Config, req: Request, l: Local, fs: FS, ch: Choice)
    requires StageOk(c, req, l) && WellFormed(fs) && OwnExists(l, fs)
    ensures Footprint(c, req, l, fs, ch)
  {
    if InPreflight(l.pc) || InTemporary(l.pc) {
      EarlyFootprint(c, req, l, fs, ch);
    }
  }

  /** Creation commits only onto a free name: no interleaving makes it replace an entry. */
  lemma CreateNeverOverwrites(c: Config, req: Request, l: Local, fs: FS, ch: Choice, n: Name)
    requires StageOk(c, req, l) && WellFormed(fs) && OwnExists(l, fs)
    requires req.mode.Create? && n in fs.names && l.temp != Some(n)
    ensures n in CallStep(c, req, l, fs, ch).1.names && CallStep(c, req, l, fs, ch).1.names[n] == fs.names[n]
  {
    StepFootprint(c, req, l, fs, ch);
  }

  /** A digest read that differs from the expected text ends the call without a commit. */
  lemma DifferingReadEndsTheCall(c: Config, req: Request, l: Local, fs: FS, ch: Choice)
    requires StageOk(c, req, l) && req.mode.Replace?
    requires (l.pc.PreRead? || l.pc.TryRead?) && l.pc.ino in fs.files
    requires DigestText(c, fs.files[l.pc.ino]) != req.mode.expected
    ensures var (l1, fs1) := CallStep(c, req, l, fs, ch);
            && fs1 == fs && Ending(l1.pc) && l1.pc.outcome.Refused? && l1.commits == 0
  {
  }

  /** An ending call only removes its temporary, and its outcome is settled. */
  lemma EndingIsSettled(c: Config, req: Request, l: Local, fs: FS, ch: Choice)
    requires StageOk(c, req, l) && Ending(l.pc)
    ensures var (l1, fs1) := CallStep(c, req, l, fs, ch);
            && Ending(l1.pc) && l1.pc.outcome == l.pc.outcome && l1.commits == l.commits
            && !Commits(req, l, fs, ch)
            && fs1.files == fs.files
            && (fs1.names == fs.names || (l.temp.Some? && fs1.names == fs.names - {l.temp.value}))
  {
  }

  /** Once committed, a call no longer looks at its context. */
  lemma CommitOutlivesCancellation(c: Config, req: Request, l: Local, fs: FS, ch: Choice, cancelled: bool)
    requires StageOk(c, req, l) && Past(l.pc)
    ensures CallStep(c, req, l, fs, ch.(cancelled := cancelled)) == CallStep(c, req, l, fs, ch)
    ensures Past(CallStep(c, req, l, fs, ch).0.pc)
  {
  }

  // ---- preflight, and one attempt, undisturbed since its open ----

  /** The target is a regular file within the bound whose digest is the expected one. */
  predicate Fresh(c: Config, req: Request, fs: FS) {
    && req.mode.Replace? && req.path in fs.names && fs.names[req.path].File?
    && fs.names[req.path].ino in fs.files
    && |fs.files[fs.names[req.path].ino]| <= c.maxWrite
    && DigestText(c, fs.files[fs.names[req.path].ino]) == req.mode.expected
  }

  predicate AttemptOk(c: Config, req: Request, fs: FS, pc: Pc) {
    match pc
    case PreOpen => req.path in fs.names && fs.names[req.path].File?
    case PreRead(ino) => req.path in fs.names && fs.names[req.path] == File(ino)
    case AfterPreflight(_) => if req.mode.Create? then req.path !in fs.names else Fresh(c, req, fs)
    case Done(outcome) => outcome.Unchanged? ==> Fresh(c, req, fs)
    case TryRead(_, ino) => req.path in fs.names && (fs.names[req.path] == File(ino) || fs.names[req.path].Symlink?)
    case TryLstat(_) => req.path in fs.names && (fs.names[req.path].Symlink? || Fresh(c, req, fs))
    case TryRename(_) => Fresh(c, req, fs)
    case _ => true
  }

  lemma PreflightAdvances(c: Config, req: Request, l: Local, fs: FS, ch: Choice)
    requires StageOk(c, req, l) && WellFormed(fs) && InPreflight(l.pc) && AttemptOk(c, req, fs, l.pc)
    ensures AttemptOk(c, req, fs, PreflightStep(c, req, l, fs, ch).pc)
  {
  }

  lemma AttemptAdvances(c: Config, req: Request, l: Local, fs: FS, ch: Choice)
    requires StageOk(c, req, l) && WellFormed(fs) && InAttempt(l.pc)
    requires l.pc.TryOpen? || AttemptOk(c, req, fs, l.pc)
    ensures AttemptOk(c, req, CallStep(c, req, l, fs, ch).1, CallStep(c, req, l, fs, ch).0.pc)
  {
  }

  lemma OutsideAttempts(c: Config, req: Request, l: Local, fs: FS, ch: Choice)
    requires !InAttempt(l.pc)
    ensures var pc := CallStep(c, req, l, fs, ch).0.pc; !pc.TryRead? && !pc.TryLstat? && !pc.TryRename?
  {
  }

  /** Past preflight no step leads back into it, and "unchanged" is no outcome any more. */
  lemma OutsidePreflight(c: Config, req: Request, l: Local, fs: FS, ch: Choice)
    requires StageOk(c, req, l) && !InPreflight(l.pc)
    ensures var (l1, fs1) := CallStep(c, req, l, fs, ch);
            && !InPreflight(l1.pc)
            && (Ending(l1.pc) && l1.pc.outcome.Unchanged? ==> Ending(l.pc) && l1.pc == l.pc && fs1 == fs)
  {
  }

  lemma AttemptKept(c: Config, req: Request, l: Local, fs: FS, ch: Choice)
    requires StageOk(c, req, l) && WellFormed(fs) && OwnExists(l, fs)
    requires l.pc.TryOpen? || AttemptOk(c, req, fs, l.pc)
    ensures AttemptOk(c, req, CallStep(c, req, l, fs, ch).1, CallStep(c, req, l, fs, ch).0.pc)
  {
    if InPreflight(l.pc) {
      PreflightAdvances(c, req, l, fs, ch);
    } else if InAttempt(l.pc) {
      AttemptAdvances(c, req, l, fs, ch);
    } else {
      OutsideAttempts(c, req, l, fs, ch);
      OutsidePreflight(c, req, l, fs, ch);
    }
  }

  /**
   The open, not the read, is where an attempt starts to watch: left alone from its
   read on, it commits if and only if the opened file has the expected digest,
   whatever regular file the target's entry leads to by then.
   */
  lemma SwapAfterOpenGoesUnnoticed(c: Config, req: Request, l: Local, fs: FS, ch: Choice)
    requires StageOk(c, req, l) && l.pc.TryRead? && !ch.cancelled && !ch.fault
    requires req.path in fs.names && fs.names[req.path].File?
    requires l.temp.value in fs.names && fs.names[l.temp.value].File?
    ensures RunCall(c, req, l, fs, [ch, ch, ch]).0.commits == 1 <==>
              && l.pc.ino in fs.files && |fs.files[l.pc.ino]| <= c.maxWrite
              && DigestText(c, fs.files[l.pc.ino]) == req.mode.expected
  {
    var l1 := AttemptStep(c, req, l, fs, ch).0;
    assert CallStep(c, req, l, fs, ch) == (l1, fs);
    assert [ch, ch, ch][1..] == [ch, ch] && [ch, ch][1..] == [ch] && [ch][1..] == [];
    var (l2, fs2) := CallStep(c, req, l1, fs, ch);
    assert RunCall(c, req, l, fs, [ch, ch, ch]) == RunCall(c, req, l2, fs2, [ch]) by {
      assert RunCall(c, req, l1, fs, [ch, ch]) == RunCall(c, req, l2, fs2, [ch]);
    }
    assert RunCall(c, req, l2, fs2, [ch]) == CallStep(c, req, l2, fs2, ch);
  }

  // ---- every call ends ----

  function Rank(pc: Pc): nat {
    match pc
    case OpenRoot => 360
    case PreLstat => 359
    case PreOpen => 358
    case PreRead(_) => 357
    case AfterPreflight(_) => 356
    case CreateTemp(tries) => if tries <= 16 then 355 - tries else 339
    case WriteTemp => 338
    case SyncTemp => 337
    case Prepared => 336
    case CheckCreate => 335
    case LinkTarget => 334
    case LinkRefused => 333
    case TryOpen(n) => if n < 64 then 9 + 5 * (64 - n) else 9
    case TryRead(n, _) => if n < 64 then 8 + 5 * (64 - n) else 8
    case TryLstat(n) => if n < 64 then 7 + 5 * (64 - n) else 7
    case TryRename(n) => if n < 64 then 6 + 5 * (64 - n) else 6
    case Pause(n) => if n < 64 then 5 + 5 * (64 - n) else 5
    case RemoveTemp => 4
    case SyncCommitted(_) => 3
    case Discard(_) => 2
    case Done(_) => 0
  }

  predicate AttemptsBounded(pc: Pc) {
    && (pc.TryOpen? || pc.TryRead? || pc.TryLstat? || pc.TryRename? ==> pc.attempt < MAXIMUM_RENAME_ATTEMPTS)
    && (pc.Pause? ==> pc.attempt + 1 < MAXIMUM_RENAME_ATTEMPTS)
    && (pc.CreateTemp? ==> pc.tries <= MAXIMUM_NAME_ATTEMPTS)
  }

  predicate Descends(c: Config, req: Request, l: Local, fs: FS, ch: Choice) {
    var l1 := CallStep(c, req, l, fs, ch).0;
    AttemptsBounded(l1.pc) && Rank(l1.pc) < Rank(l.pc)
  }

  lemma PreflightDescends(c: Config, req: Request, l: Local, fs: FS, ch: Choice)
    requires InPreflight(l.pc)
    ensures Descends(c, req, l, fs, ch)
  {
  }

  lemma PreparationDescends(c: Config, req: Request, l: Local, fs: FS, ch: Choice)
    requires AttemptsBounded(l.pc) && InTemporary(l.pc)
    ensures Descends(c, req, l, fs, ch)
  {
  }

  lemma CreationDescends(c: Config, req: Request, l: Local, fs: FS, ch: Choice)
    requires InCreate(l.pc)
    ensures Descends(c, req, l, fs, ch)
  {
  }

  lemma AttemptDescends(c: Config, req: Request, l: Local, fs: FS, ch: Choice)
    requires AttemptsBounded(l.pc) && InAttempt(l.pc)
    ensures Descends(c, req, l, fs, ch)
  {
  }

  lemma StepDescends(c: Config, req: Request, l: Local, fs: FS, ch: Choice)
    requires AttemptsBounded(l.pc) && !l.pc.Done?
    ensures AttemptsBounded(CallStep(c, req, l, fs, ch).0.pc)
    ensures Rank(CallStep(c, req, l, fs, ch).0.pc) < Rank(l.pc)
  {
    if InPreflight(l.pc) {
      PreflightDescends(c, req, l, fs, ch);
    } else if InTemporary(l.pc) {
      PreparationDescends(c, req, l, fs, ch);
    } else if InCreate(l.pc) {
      CreationDescends(c, req, l, fs, ch);
    } else if InAttempt(l.pc) {
      AttemptDescends(c, req, l, fs, ch);
    }
  }

  // ---- a call left alone ----

  /** The entries once the temporary, if still named, is added to what the call started from. */
  function WithTemp(names: map<Name, Node>, l: Local): map<Name, Node> {
    if l.temp.Some? && l.own.Some? then names[l.temp.value := File(l.own.value)] else names
  }

  function WithTarget(names: map<Name, Node>, req: Request, l: Local): map<Name, Node> {
    if l.own.Some? then names[req.path := File(l.own.value)] else names
  }

  predicate Written(pc: Pc) {
    pc.SyncCommitted? || Past(pc) || (HasTemp(pc) && !pc.WriteTemp? && !pc.Discard?)
  }

  /** What an undisturbed call has done to contents so far: its own inode, and no other. */
  ghost predicate AloneFiles(req: Request, fs0: FS, l: Local, fs: FS) {
    && (l.own.Some? ==> l.own.value !in fs0.files)
    && (l.temp.Some? ==> l.own.Some? && l.temp.value !in fs0.names)
    && (forall i :: i in fs0.files ==> i in fs.files && fs.files[i] == fs0.files[i])
  }

  ghost predicate AloneWritten(req: Request, l: Local, fs: FS) {
    Written(l.pc) && l.own.Some? ==> l.own.value in fs.files && fs.files[l.own.value] == req.content
  }

  /** What an undisturbed call has done to entries so far: its temporary, and the target once committed. */
  ghost predicate AloneNames(c: Config, req: Request, fs0: FS, l: Local, fs: FS) {
    && (Past(l.pc) ==> if req.mode.Create? then req.path !in fs0.names else Fresh(c, req, fs0))
    && (Past(l.pc) && l.temp.Some? ==> l.temp.value != req.path)
    && var named := if Past(l.pc) then WithTarget(fs0.names, req, l) else fs0.names;
       fs.names == WithTemp(named, l) || (l.pc.Done? && fs.names == named)
  }

  /** Where a call that started on fs0 stands when nobody else has written since. */
  ghost predicate Alone(c: Config, req: Request, fs0: FS, l: Local, fs: FS) {
    && StageOk(c, req, l) && AttemptOk(c, req, fs, l.pc)
    && WellFormed(fs0) && WellFormed(fs) && OwnExists(l, fs) && fs0.next <= fs.next
    && AloneFiles(req, fs0, l, fs) && AloneWritten(req, l, fs) && AloneNames(c, req, fs0, l, fs)
  }

  lemma AloneAtStart(c: Config, req: Request, fs0: FS)
    requires WellFormed(fs0)
    ensures Alone(c, req, fs0, START, fs0)
  {
  }

  /** The commit of an undisturbed replace moves the temporary over exactly the file its digest was read from. */
  lemma AloneRename(c: Config, req: Request, fs0: FS, l: Local, fs: FS, ch: Choice)
    requires Alone(c, req, fs0, l, fs) && l.pc.TryRename? && Commits(req, l, fs, ch)
    ensures Alone(c, req, fs0, CallStep(c, req, l, fs, ch).0, CallStep(c, req, l, fs, ch).1)
  {
    var temp, own := l.temp.value, l.own.value;
    assert fs.names[temp] == File(own);
    assert req.path != temp;
    assert req.path in fs0.names && fs0.names[req.path] == fs.names[req.path];
    assert Fresh(c, req, fs0);
    assert fs.names[req.path] != fs.names[temp];
    var fs1 := CallStep(c, req, l, fs, ch).1;
    assert fs1.names == (fs.names - {temp})[req.path := File(own)];
    assert fs1.names == fs0.names[req.path := File(own)];
  }

  lemma OwnStays(c: Config, req: Request, l: Local, fs: FS, ch: Choice)
    requires !l.pc.CreateTemp?
    ensures var l1 := CallStep(c, req, l, fs, ch).0;
            l1.own == l.own && (l1.temp == l.temp || l1.temp == None)
  {
  }

  lemma AloneFilesKept(c: Config, req: Request, fs0: FS, l: Local, fs: FS, ch: Choice)
    requires StageOk(c, req, l) && WellFormed(fs0) && WellFormed(fs) && OwnExists(l, fs) && fs0.next <= fs.next
    requires AloneFiles(req, fs0, l, fs)
    requires l.pc.CreateTemp? ==> fs.names == fs0.names
    ensures AloneFiles(req, fs0, CallStep(c, req, l, fs, ch).0, CallStep(c, req, l, fs, ch).1)
  {
    StepFootprint(c, req, l, fs, ch);
    if !l.pc.CreateTemp? {
      OwnStays(c, req, l, fs, ch);
    }
  }

  lemma ContentsStay(c: Config, req: Request, l: Local, fs: FS, ch: Choice)
    requires StageOk(c, req, l) && !InTemporary(l.pc)
    ensures var (l1, fs1) := CallStep(c, req, l, fs, ch);
            fs1.files == fs.files && l1.own == l.own && (Written(l1.pc) && l.own.Some? ==> Written(l.pc))
  {
  }

  lemma AloneWrittenKept(c: Config, req: Request, fs0: FS, l: Local, fs: FS, ch: Choice)
    requires StageOk(c, req, l) && OwnExists(l, fs) && AloneWritten(req, l, fs)
    ensures AloneWritten(req, CallStep(c, req, l, fs, ch).0, CallStep(c, req, l, fs, ch).1)
  {
    if !InTemporary(l.pc) {
      ContentsStay(c, req, l, fs, ch);
    }
  }

  lemma AloneNamesEarly(c: Config, req: Request, fs0: FS, l: Local, fs: FS, ch: Choice)
    requires Alone(c, req, fs0, l, fs) && (InPreflight(l.pc) || InTemporary(l.pc))
    ensures AloneNames(c, req, fs0, CallStep(c, req, l, fs, ch).0, CallStep(c, req, l, fs, ch).1)
  {
  }

  lemma AloneLink(c: Config, req: Request, fs0: FS, l: Local, fs: FS, ch: Choice)
    requires Alone(c, req, fs0, l, fs) && l.pc.LinkTarget? && Commits(req, l, fs, ch)
    ensures AloneNames(c, req, fs0, CallStep(c, req, l, fs, ch).0, CallStep(c, req, l, fs, ch).1)
  {
    var (l1, fs1) := CallStep(c, req, l, fs, ch);
    assert req.path !in fs0.names && fs.names[l.temp.value] == File(l.own.value);
    assert fs1.names == WithTemp(WithTarget(fs0.names, req, l1), l1);
  }

  lemma NoCommitNoChange(c: Config, req: Request, l: Local, fs: FS, ch: Choice)
    requires StageOk(c, req, l) && (InCreate(l.pc) || InAttempt(l.pc)) && !Commits(req, l, fs, ch)
    ensures var (l1, fs1) := CallStep(c, req, l, fs, ch);
            fs1 == fs && l1.temp == l.temp && l1.own == l.own && !Past(l1.pc)
  {
  }

  lemma AloneNamesCommitting(c: Config, req: Request, fs0: FS, l: Local, fs: FS, ch: Choice)
    requires Alone(c, req, fs0, l, fs) && (InCreate(l.pc) || InAttempt(l.pc))
    ensures AloneNames(c, req, fs0, CallStep(c, req, l, fs, ch).0, CallStep(c, req, l, fs, ch).1)
  {
    if !Commits(req, l, fs, ch) {
      NoCommitNoChange(c, req, l, fs, ch);
    } else if l.pc.TryRename? {
      AloneRename(c, req, fs0, l, fs, ch);
    } else {
      AloneLink(c, req, fs0, l, fs, ch);
    }
  }

  lemma AloneNamesClosing(c: Config, req: Request, fs0: FS, l: Local, fs: FS, ch: Choice)
    requires Alone(c, req, fs0, l, fs)
    requires !InPreflight(l.pc) && !InTemporary(l.pc) && !InCreate(l.pc) && !InAttempt(l.pc)
    ensures AloneNames(c, req, fs0, CallStep(c, req, l, fs, ch).0, CallStep(c, req, l, fs, ch).1)
  {
    if l.temp.Some? {
      var named := if Past(l.pc) then WithTarget(fs0.names, req, l) else fs0.names;
      assert l.temp.value !in named;
      assert WithTemp(named, l) - {l.temp.value} == named;
    }
  }

  lemma AloneKept(c: Config, req: Request, fs0: FS, l: Local, fs: FS, ch: Choice)
    requires Alone(c, req, fs0, l, fs)
    ensures Alone(c, req, fs0, CallStep(c, req, l, fs, ch).0, CallStep(c, req, l, fs, ch).1)
  {
    var (l1, fs1) := CallStep(c, req, l, fs, ch);
    assert StageOk(c, req, l1) by { StageKept(c, req, l, fs, ch); }
    assert WellFormed(fs1) && OwnExists(l1, fs1) && fs.next <= fs1.next by { StepFootprint(c, req, l, fs, ch); }
    assert AttemptOk(c, req, fs1, l1.pc) by { AttemptKept(c, req, l, fs, ch); }
    assert AloneFiles(req, fs0, l1, fs1) by { AloneFilesKept(c, req, fs0, l, fs, ch); }
    assert AloneWritten(req, l1, fs1) by { AloneWrittenKept(c, req, fs0, l, fs, ch); }
    assert AloneNames(c, req, fs0, l1, fs1) by {
      if InPreflight(l.pc) || InTemporary(l.pc) {
        AloneNamesEarly(c, req, fs0, l, fs, ch);
      } else if InCreate(l.pc) || InAttempt(l.pc) {
        AloneNamesCommitting(c, req, fs0, l, fs, ch);
      } else {
        AloneNamesClosing(c, req, fs0, l, fs, ch);
      }
    }
  }
}
