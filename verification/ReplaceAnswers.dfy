/**
 Which answer an input gets: in an environment where nothing fails and nobody
 cancels, a replace call's outcome is told by the filesystem it starts on (replace.go).
 */
module ReplaceAnswers {
  import opened Common
  import opened Digests
  import opened ReplaceCall
  import opened ReplaceSafety
  import opened ReplaceEvents
  import opened ReplaceSerial

  /** Proposed names may be taken, but never the target's own. */
  predicate Calm(req: Request, ch: Choice) {
    !ch.cancelled && !ch.fault && ch.name != req.path
  }

  predicate TargetIsFile(req: Request, fs: FS) {
    req.path in fs.names && fs.names[req.path].File? && fs.names[req.path].ino in fs.files
  }

  function TargetContent(req: Request, fs: FS): bytes
    requires TargetIsFile(req, fs)
  {
    fs.files[fs.names[req.path].ino]
  }

  predicate NamesExhausted(outcome: Outcome) {
    outcome == Refused(TemporaryFailed)
  }

  /** What the starting filesystem must have been like for this outcome. */
  ghost predicate Justified(c: Config, req: Request, fs: FS, outcome: Outcome) {
    match outcome
    case Cancelled => false
    case Unchanged => Fresh(c, req, fs) && SameDigest(c, req)
    case Committed(_, _, _) => Ready(c, req, fs)
    case Refused(code) =>
      match code
      case AlreadyExists => req.mode.Create? && req.path in fs.names
      case NotFound => req.mode.Replace? && req.path !in fs.names
      case NotRegular => req.mode.Replace? && req.path in fs.names && !fs.names[req.path].File?
      case FileTooLarge => req.mode.Replace? && TargetIsFile(req, fs) && |TargetContent(req, fs)| > c.maxWrite
      case Stale =>
        && req.mode.Replace? && TargetIsFile(req, fs) && |TargetContent(req, fs)| <= c.maxWrite
        && DigestText(c, TargetContent(req, fs)) != req.mode.expected
      case TemporaryFailed => Ready(c, req, fs)
      case _ => false
  }

  /** A calm call so far: in preflight it has touched nothing, past it it is ready, and its outcome is justified. */
  ghost predicate CalmOk(c: Config, req: Request, fs0: FS, l: Local, fs: FS) {
    && Alone(c, req, fs0, l, fs)
    && !l.pc.LinkRefused? && !l.pc.Pause? && !l.pc.Discard? && (l.pc.SyncCommitted? ==> l.pc.cleaned)
    && (InPreflight(l.pc) || l.pc.CreateTemp? ==> fs == fs0)
    && (!InPreflight(l.pc) && !Ending(l.pc) ==> Ready(c, req, fs0))
    && (l.temp.Some? && !Past(l.pc) ==> l.temp.value != req.path)
    && (Ending(l.pc) ==> Justified(c, req, fs0, l.pc.outcome) && (!l.pc.outcome.Committed? ==> fs == fs0))
  }

  lemma CalmPreflight(c: Config, req: Request, fs0: FS, l: Local, fs: FS, ch: Choice)
    requires CalmOk(c, req, fs0, l, fs) && Calm(req, ch) && InPreflight(l.pc)
    ensures CalmOk(c, req, fs0, CallStep(c, req, l, fs, ch).0, CallStep(c, req, l, fs, ch).1)
  {
    AloneKept(c, req, fs0, l, fs, ch);
  }

  lemma CalmTemporary(c: Config, req: Request, fs0: FS, l: Local, fs: FS, ch: Choice)
    requires CalmOk(c, req, fs0, l, fs) && Calm(req, ch) && InTemporary(l.pc)
    ensures CalmOk(c, req, fs0, CallStep(c, req, l, fs, ch).0, CallStep(c, req, l, fs, ch).1)
  {
    AloneKept(c, req, fs0, l, fs, ch);
  }

  lemma CalmLate(c: Config, req: Request, fs0: FS, l: Local, fs: FS, ch: Choice)
    requires CalmOk(c, req, fs0, l, fs) && Calm(req, ch) && !InPreflight(l.pc) && !InTemporary(l.pc)
    ensures CalmOk(c, req, fs0, CallStep(c, req, l, fs, ch).0, CallStep(c, req, l, fs, ch).1)
  {
    AloneKept(c, req, fs0, l, fs, ch);
    if !Past(l.pc) && !Ending(l.pc) {
      assert fs.names == WithTemp(fs0.names, l);
      assert req.path in fs.names <==> req.path in fs0.names;
      assert req.path in fs0.names ==> fs.names[req.path] == fs0.names[req.path];
    }
  }

  lemma {:induction false} CalmThroughout(c: Config, req: Request, fs0: FS, l: Local, fs: FS, script: seq<Choice>)
    requires CalmOk(c, req, fs0, l, fs)
    requires forall i :: 0 <= i < |script| ==> Calm(req, script[i])
    ensures var (l1, fs1) := RunCall(c, req, l, fs, script); CalmOk(c, req, fs0, l1, fs1)
    decreases |script|
  {
    if script != [] {
      var (l1, fs1) := CallStep(c, req, l, fs, script[0]);
      if InPreflight(l.pc) {
        CalmPreflight(c, req, fs0, l, fs, script[0]);
      } else if InTemporary(l.pc) {
        CalmTemporary(c, req, fs0, l, fs, script[0]);
      } else {
        CalmLate(c, req, fs0, l, fs, script[0]);
      }
      CalmThroughout(c, req, fs0, l1, fs1, script[1..]);
    }
  }

  /**
   Left alone and failed by nothing, each answer is given exactly to the inputs it
   is meant for, and every answer but a commit leaves the filesystem as it was. The
   one thing left to chance is whether sixteen proposed names are all taken.
   */
  lemma AnswerByInput(c: Config, req: Request, fs0: FS, script: seq<Choice>)
    requires WellFormed(fs0) && RunCall(c, req, START, fs0, script).0.pc.Done?
    requires forall i :: 0 <= i < |script| ==> Calm(req, script[i])
    ensures var (l, fs) := RunCall(c, req, START, fs0, script);
            var outcome := l.pc.outcome;
            && (outcome == Refused(AlreadyExists) <==> req.mode.Create? && req.path in fs0.names)
            && (outcome == Refused(NotFound) <==> req.mode.Replace? && req.path !in fs0.names)
            && (outcome == Refused(NotRegular) <==>
                  req.mode.Replace? && req.path in fs0.names && (fs0.names[req.path].Symlink? || fs0.names[req.path].Directory?))
            && (outcome == Refused(FileTooLarge) <==>
                  req.mode.Replace? && TargetIsFile(req, fs0) && |TargetContent(req, fs0)| > c.maxWrite)
            && (outcome == Refused(Stale) <==>
                  && req.mode.Replace? && TargetIsFile(req, fs0) && |TargetContent(req, fs0)| <= c.maxWrite
                  && Hex(c.hash(TargetContent(req, fs0))) != req.mode.expected)
            && (outcome == Unchanged <==>
                  && req.mode.Replace? && TargetIsFile(req, fs0) && |TargetContent(req, fs0)| <= c.maxWrite
                  && Hex(c.hash(TargetContent(req, fs0))) == req.mode.expected == Hex(c.hash(req.content)))
            && (outcome.Committed? || NamesExhausted(outcome) <==>
                  if req.mode.Create? then req.path !in fs0.names
                  else && TargetIsFile(req, fs0) && |TargetContent(req, fs0)| <= c.maxWrite
                       && Hex(c.hash(TargetContent(req, fs0))) == req.mode.expected != Hex(c.hash(req.content)))
            && (!outcome.Committed? ==> fs == fs0)
  {
    AloneAtStart(c, req, fs0);
    CalmThroughout(c, req, fs0, START, fs0, script);
  }
}
