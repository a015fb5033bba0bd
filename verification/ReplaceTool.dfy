/**
 The replace tool as mutable code (replace.go): the lease, preflight, the
 temporary file with its bounded choice of names, the two commits with their
 bounded retry loop, and the deferred removal. Each method is proved to take the
 filesystem exactly where the call machine goes on the same answers, so what is
 proved of the machine holds of this code.
 */
module ReplaceTools {
  import opened Common
  import opened ReplaceCall
  import opened ReplaceSafety
  import opened ReplaceEvents
  import opened ReplaceSerial

  class ReplaceTool {
    const c: Config
    var leased: bool
    var fs: FS
    var script: seq<Choice>   // the environment's answers still to come

    // the call machine on the answers used so far
    ghost var req: Request
    ghost var start: FS
    ghost var used: seq<Choice>
    ghost var given: seq<Choice>   // those used and those still to come
    ghost var l: Local

    ghost predicate Valid()
      reads this
    {
      && RunCall(c, req, START, start, used) == (l, fs)
      && AttemptsBounded(l.pc) && Rank(l.pc) <= |script|
      && used + script == given
    }

    constructor (c: Config, fs: FS, script: seq<Choice>)
      ensures this.c == c && this.fs == fs && this.script == script && !leased
    {
      this.c, this.fs, this.script, leased := c, fs, script, false;
      req, start, used, given, l := Request("", [], Create), fs, [], script, START;
    }

    /** The next answer. */
    method Answer() returns (ch: Choice)
      requires Valid() && !l.pc.Done?
      modifies `script
      ensures |script| == |old(script)| - 1 && used + [ch] + script == given
    {
      ch := script[0];
      script := script[1..];
    }

    /** Follows one answer in the machine; the code has made the same change to the filesystem. */
    ghost method Follow(before: FS, ch: Choice)
      requires RunCall(c, req, START, start, used) == (l, before)
      requires AttemptsBounded(l.pc) && !l.pc.Done? && Rank(l.pc) <= |script| + 1
      requires fs == CallStep(c, req, l, before, ch).1
      requires used + [ch] + script == given
      modifies `l, `used
      ensures Valid() && l == CallStep(c, req, old(l), before, ch).0
    {
      RunCallAppend(c, req, START, start, used, ch);
      StepDescends(c, req, l, before, ch);
      l, used := CallStep(c, req, l, before, ch).0, used + [ch];
    }

    /** Lstat, then in replace mode the bounded digest; `same` is whether the content already has the expected digest. */
    method Preflight(request: Request) returns (stopped: Option<Outcome>, same: bool)
      requires Valid() && req == request && l == START.(pc := PreLstat)
      modifies `script, `l, `used
      ensures Valid()
      ensures stopped.Some? ==> l == START.(pc := Done(stopped.value))
      ensures stopped.None? ==> l == START.(pc := AfterPreflight(same))
      // told by the filesystem: only a free name, or a fresh regular file, passes
      ensures stopped.None? ==> (same <==> SameDigest(c, request))
      ensures stopped.None? ==> if request.mode.Create? then request.path !in fs.names else Fresh(c, request, fs)
      ensures request.mode.Replace? && request.path in fs.names && !fs.names[request.path].File? ==>
                stopped == Some(Refused(NotRegular)) || stopped == Some(Refused(PathUnavailable))
    {
      same := false;
      var ch := Answer();
      Follow(fs, ch);
      if ch.fault {
        return Some(Refused(PathUnavailable)), false;
      }
      if request.mode.Create? {
        if request.path in fs.names {
          return Some(Refused(AlreadyExists)), false;
        }
        return None, false;
      }
      if request.path !in fs.names {
        return Some(Refused(NotFound)), false;
      }
      if !fs.names[request.path].File? {
        return Some(Refused(NotRegular)), false;
      }
      ch := Answer();
      Follow(fs, ch);
      var handle := OpenForDigest(fs, request.path, ch);
      if handle.OpenFailed? {
        return Some(Refused(handle.code)), false;
      }
      ch := Answer();
      Follow(fs, ch);
      var problem := DigestProblem(c, fs, handle.ino, request.mode.expected, ch);
      if problem.Some? {
        return Some(Refused(problem.value)), false;
      }
      same := request.mode.expected == DigestText(c, request.content);
      stopped := None;
    }

    method RemoveBestEffort(temp: Name)
      requires Valid() && l.pc.Discard? && l.temp == Some(temp)
      modifies `fs, `script, `l, `used
      ensures Valid() && l == old(l).(pc := Done(old(l).pc.outcome))
    {
      var ch := Answer();
      ghost var before := fs;
      if !ch.fault {
        fs := Remove(fs, temp);
      }
      Follow(before, ch);
    }

    /** Writes, syncs and closes the temporary, looking at the context before and after. */
    method WriteAndSync(request: Request, own: Ino) returns (stopped: Option<Outcome>)
      requires Valid() && req == request && l.pc.WriteTemp? && l.own == Some(own) && l.temp.Some?
      modifies `fs, `script, `l, `used
      ensures Valid()
      ensures stopped.None? ==> l == old(l).(pc := Prepared)
      ensures stopped.Some? ==> l == old(l).(pc := Discard(stopped.value))
    {
      var ch := Answer();
      ghost var before := fs;
      if ch.cancelled {
        Follow(before, ch);
        return Some(Cancelled);
      }
      if ch.fault {
        fs := fs.(files := fs.files[own := ch.partial]);
        Follow(before, ch);
        return Some(Refused(WriteFailed));
      }
      fs := fs.(files := fs.files[own := request.content]);
      Follow(before, ch);
      ch := Answer();
      Follow(fs, ch);
      if ch.fault {
        return Some(Refused(SyncFailed));
      }
      if ch.cancelled {
        return Some(Cancelled);
      }
      stopped := None;
    }

    /** Up to sixteen proposed names, created exclusively; a temporary that cannot be written is removed again. */
    method WriteTemporary(request: Request) returns (stopped: Option<Outcome>, temp: Name)
      requires Valid() && req == request && l == START.(pc := CreateTemp(0))
      modifies `fs, `script, `l, `used
      ensures Valid()
      ensures stopped.None? ==> l.temp == Some(temp) && l.own.Some? && l == Local(Prepared, Some(temp), l.own, 0)
      ensures stopped.Some? ==> l.pc == Done(stopped.value)
    {
      temp := "";
      var tries := 0;
      while tries < MAXIMUM_NAME_ATTEMPTS
        invariant 0 <= tries <= MAXIMUM_NAME_ATTEMPTS
        invariant Valid() && l == START.(pc := CreateTemp(tries))
      {
        var ch := Answer();
        ghost var before := fs;
        if ch.fault {
          Follow(before, ch);
          return Some(Refused(TemporaryFailed)), temp;
        }
        if ch.name !in fs.names {
          temp := ch.name;
          var own := fs.next;
          fs := FS(fs.names[temp := File(own)], fs.files[own := []], own + 1);
          Follow(before, ch);
          stopped := WriteAndSync(request, own);
          if stopped.Some? {
            RemoveBestEffort(temp);
          }
          return;
        }
        Follow(before, ch);
        tries := tries + 1;
      }
      var ch := Answer();
      Follow(fs, ch);
      stopped := Some(Refused(TemporaryFailed));
    }

    /** The exclusive hard link, and an Lstat to name the reason of a refusal. */
    method LinkTemporary(request: Request, temp: Name) returns (stopped: Option<Outcome>)
      requires Valid() && req == request && l.pc.LinkTarget? && l.temp == Some(temp)
      modifies `fs, `script, `l, `used
      ensures Valid()
      ensures stopped.None? ==> l == old(l).(pc := RemoveTemp, commits := old(l.commits) + 1)
      ensures stopped.Some? ==> l == old(l).(pc := Discard(stopped.value))
    {
      var ch := Answer();
      ghost var before := fs;
      if LinkSucceeds(fs, temp, request.path, ch) {
        fs := fs.(names := fs.names[request.path := fs.names[temp]]);
        Follow(before, ch);
        return None;
      }
      Follow(before, ch);
      ch := Answer();
      Follow(fs, ch);
      stopped := Some(Refused(if !ch.fault && request.path in fs.names then AlreadyExists else CreateFailed));
    }

    /** Lstat, then the exclusive hard link. */
    method CommitCreate(request: Request, temp: Name) returns (stopped: Option<Outcome>)
      requires Valid() && req == request && l.pc.CheckCreate? && l.temp == Some(temp)
      modifies `fs, `script, `l, `used
      ensures Valid()
      ensures stopped.None? ==> l == old(l).(pc := RemoveTemp, commits := old(l.commits) + 1)
      ensures stopped.Some? ==> l == old(l).(pc := Discard(stopped.value))
    {
      var ch := Answer();
      Follow(fs, ch);
      if ch.cancelled {
        return Some(Cancelled);
      }
      if ch.fault {
        return Some(Refused(PathUnavailable));
      }
      if request.path in fs.names {
        return Some(Refused(AlreadyExists));
      }
      stopped := LinkTemporary(request, temp);
    }

    /** The context check, and the target's digest compared with the expected one. */
    method CheckDigest(request: Request, ghost attempt: nat) returns (stopped: Option<Outcome>)
      requires Valid() && req == request && request.mode.Replace? && l.pc == TryOpen(attempt) && l.temp.Some?
      modifies `script, `l, `used
      ensures Valid()
      ensures l == old(l).(pc := if stopped.Some? then Discard(stopped.value) else TryLstat(attempt))
    {
      var ch := Answer();
      Follow(fs, ch);
      if ch.cancelled {
        return Some(Cancelled);
      }
      var handle := OpenForDigest(fs, request.path, ch);
      if handle.OpenFailed? {
        return Some(Refused(handle.code));
      }
      ch := Answer();
      Follow(fs, ch);
      var problem := DigestProblem(c, fs, handle.ino, request.mode.expected, ch);
      if problem.Some? {
        return Some(Refused(problem.value));
      }
      stopped := None;
    }

    /** The checks at the start of an attempt: context, digest, and the entry itself. */
    method CheckAttempt(request: Request, ghost attempt: nat) returns (stopped: Option<Outcome>)
      requires Valid() && req == request && request.mode.Replace? && l.pc == TryOpen(attempt) && l.temp.Some?
      modifies `script, `l, `used
      ensures Valid()
      ensures l == old(l).(pc := if stopped.Some? then Discard(stopped.value) else TryRename(attempt))
    {
      stopped := CheckDigest(request, attempt);
      if stopped.Some? {
        return;
      }
      var ch := Answer();
      Follow(fs, ch);
      if ch.fault || request.path !in fs.names || !fs.names[request.path].File? {
        return Some(Refused(Stale));
      }
    }

    /** The context check and the rename itself; `again` asks for another attempt. */
    method RenameTarget(request: Request, temp: Name, attempt: nat) returns (stopped: Option<Outcome>, again: bool)
      requires Valid() && req == request && l.pc == TryRename(attempt) && l.temp == Some(temp)
      modifies `fs, `script, `l, `used
      ensures Valid()
      ensures again ==> attempt + 1 < MAXIMUM_RENAME_ATTEMPTS && stopped.None? && l == old(l).(pc := TryOpen(attempt + 1))
      ensures !again && stopped.None? ==> l == Local(SyncCommitted(true), None, old(l.own), old(l.commits) + 1)
      ensures stopped.Some? ==> l == old(l).(pc := Discard(stopped.value))
    {
      again := false;
      var ch := Answer();
      ghost var before := fs;
      if ch.cancelled {
        Follow(before, ch);
        return Some(Cancelled), false;
      }
      if RenameSucceeds(fs, temp, request.path, ch) {
        fs := Rename(fs, temp, request.path);
        Follow(before, ch);
        return None, false;
      }
      Follow(before, ch);
      if !ch.retryable || attempt + 1 >= MAXIMUM_RENAME_ATTEMPTS {
        return Some(Refused(ReplaceFailed)), false;
      }
      ch := Answer();
      Follow(fs, ch);
      if ch.cancelled {
        return Some(Cancelled), false;
      }
      return None, true;
    }

    /** The bounded retry loop: every attempt repeats all checks before it renames. */
    method CommitReplace(request: Request, temp: Name) returns (stopped: Option<Outcome>)
      requires Valid() && req == request && request.mode.Replace? && l.pc == TryOpen(0) && l.temp == Some(temp)
      modifies `fs, `script, `l, `used
      ensures Valid()
      ensures stopped.None? ==> l == Local(SyncCommitted(true), None, old(l.own), old(l.commits) + 1)
      ensures stopped.Some? ==> l == old(l).(pc := Discard(stopped.value))
    {
      var attempt := 0;
      while attempt < MAXIMUM_RENAME_ATTEMPTS
        invariant 0 <= attempt < MAXIMUM_RENAME_ATTEMPTS
        invariant Valid() && l == old(l).(pc := TryOpen(attempt))
        decreases MAXIMUM_RENAME_ATTEMPTS - attempt
      {
        stopped := CheckAttempt(request, attempt);
        if stopped.Some? {
          return;
        }
        var again;
        stopped, again := RenameTarget(request, temp, attempt);
        if !again {
          return;
        }
        attempt := attempt + 1;
      }
    }

    /** The commit of the request's own mode. */
    method CommitPrepared(request: Request, temp: Name) returns (stopped: Option<Outcome>)
      requires Valid() && req == request && l.temp == Some(temp)
      requires l.pc == if request.mode.Create? then CheckCreate else TryOpen(0)
      modifies `fs, `script, `l, `used
      ensures Valid()
      ensures stopped.None? ==> l == if request.mode.Create?
                                     then old(l).(pc := RemoveTemp, commits := old(l.commits) + 1)
                                     else Local(SyncCommitted(true), None, old(l.own), old(l.commits) + 1)
      ensures stopped.Some? ==> l == old(l).(pc := Discard(stopped.value))
    {
      if request.mode.Create? {
        stopped := CommitCreate(request, temp);
      } else {
        stopped := CommitReplace(request, temp);
      }
    }

    /** What follows a commit: remove creation's temporary, then sync the file and its directory. */
    method FinishCommitted(request: Request, temp: Name) returns (outcome: Outcome)
      requires Valid() && req == request
      requires if request.mode.Create? then l.pc.RemoveTemp? && l.temp == Some(temp) else l.pc == SyncCommitted(true) && l.temp == None
      modifies `fs, `script, `l, `used
      ensures Valid() && l.pc == Done(outcome)
    {
      var cleaned := true;
      if request.mode.Create? {
        var ch := Answer();
        ghost var before := fs;
        if ch.fault || temp !in fs.names {
          cleaned := false;
        } else {
          fs := Remove(fs, temp);
        }
        Follow(before, ch);
      }
      var ch := Answer();
      Follow(fs, ch);
      outcome := Committed(request.mode.Create?, cleaned, !ch.fault);
      if !cleaned {
        RemoveBestEffort(temp);
      }
    }

    /** From the written temporary to the end of the call. */
    method CommitTemporary(request: Request, temp: Name) returns (outcome: Outcome)
      requires Valid() && req == request && l == Local(Prepared, Some(temp), l.own, 0)
      modifies `fs, `script, `l, `used
      ensures Valid() && l.pc == Done(outcome)
    {
      var ch := Answer();
      Follow(fs, ch);
      if ch.cancelled {
        RemoveBestEffort(temp);
        return Cancelled;
      }
      var stopped := CommitPrepared(request, temp);
      if stopped.Some? {
        RemoveBestEffort(temp);
        return stopped.value;
      }
      outcome := FinishCommitted(request, temp);
    }

    /** replace: everything that happens while the lease is held. */
    method Replace(request: Request) returns (outcome: Outcome)
      requires Valid() && req == request && l == START
      modifies `fs, `script, `l, `used
      ensures Valid() && l.pc == Done(outcome)
    {
      var ch := Answer();
      Follow(fs, ch);
      if ch.fault {
        return Refused(RootUnavailable);
      }
      var stopped, same := Preflight(request);
      if stopped.Some? {
        return stopped.value;
      }
      ch := Answer();
      Follow(fs, ch);
      if ch.cancelled {
        return Cancelled;
      }
      if same {
        return Unchanged;
      }
      var temp;
      stopped, temp := WriteTemporary(request);
      if stopped.Some? {
        return stopped.value;
      }
      outcome := CommitTemporary(request, temp);
    }

    /** Takes the free lease unless the context has ended before or just after. */
    method AcquireCommitLease(endedBefore: bool, endedAfter: bool) returns (acquired: bool)
      requires !leased
      modifies `leased
      ensures acquired <==> !endedBefore && !endedAfter
      ensures leased == acquired
    {
      if endedBefore {
        return false;
      }
      leased := true;
      if endedAfter {
        leased := false;
        return false;
      }
      acquired := true;
    }

    /**
     Execute from the lease on. A call that does not get the lease touches nothing;
     one that does ends where the call machine ends on the answers it was given, all
     or nothing on the filesystem it found, its temporary left behind only if the
     deferred removal failed. Either way the lease is free again.
     */
    method Execute(request: Request, endedBefore: bool, endedAfter: bool, encodable: bool) returns (reply: Reply)
      requires !leased && WellFormed(fs) && |script| >= Rank(OpenRoot)
      modifies this
      ensures !leased && WellFormed(fs)
      ensures endedBefore || endedAfter ==> reply == Cancellation && fs == old(fs)
      ensures !endedBefore && !endedAfter ==>
                && EndsAs(c, request, old(fs), old(script), l, fs) && reply == ReplyTo(l.pc.outcome, encodable)
                && ReplyTells(c, request, old(fs), old(script), reply, encodable)
      ensures AdmitsCommit(reply) ==> Ready(c, request, old(fs))
    {
      var acquired := AcquireCommitLease(endedBefore, endedAfter);
      if !acquired {
        return Cancellation;
      }
      req, start, used, given, l := request, fs, [], script, START;
      var outcome := Replace(request);
      CallEnds(c, request, start, used, script, l, fs);
      ReplyTellsEvents(c, request, start, given, encodable);
      leased := false;
      reply := ReplyTo(outcome, encodable);
    }
  }
}
