/**
 One replace call inside its commit lease (replace.go), as a machine that makes
 one filesystem call, or one context check and one filesystem call, per step.

 Names lead to inodes and inodes to content, because creation hard-links the
 temporary file. Every answer of the environment comes from a Choice: whether the
 context has ended, whether a call fails (a failing rename, link or removal
 changes nothing), which temporary name the random generator proposes, where a
 symbolic link leads, how much a failing write wrote. Nothing is assumed of the
 proposed names; O_EXCL alone keeps them off existing entries.
 */
module ReplaceCall {
  import opened Common
  import opened Digests

  type Name = string
  type Ino = nat

  datatype Node = File(ino: Ino) | Symlink | Directory

  /** next is above every inode number ever used. */
  datatype FS = FS(names: map<Name, Node>, files: map<Ino, bytes>, next: Ino)

  ghost predicate WellFormed(fs: FS) {
    && (forall n :: n in fs.names && fs.names[n].File? ==> fs.names[n].ino in fs.files)
    && (forall i :: i in fs.files ==> i < fs.next)
  }

  datatype Config = Config(maxWrite: nat, hash: bytes -> Digest)

  function DigestText(c: Config, content: bytes): bytes {
    Hex(c.hash(content))
  }

  datatype Mode = Create | Replace(expected: bytes)

  datatype Request = Request(path: Name, content: bytes, mode: Mode)

  datatype Code =
    | RootUnavailable | PathUnavailable | AlreadyExists | NotFound | NotRegular | ReadFailed | FileTooLarge
    | Stale | TemporaryFailed | WriteFailed | SyncFailed | CreateFailed | ReplaceFailed

  datatype Outcome =
    | Cancelled
    | Refused(code: Code)
    | Unchanged
    | Committed(created: bool, cleaned: bool, durable: bool)

  const MAXIMUM_RENAME_ATTEMPTS := 64
  const MAXIMUM_NAME_ATTEMPTS := 16

  datatype Pc =
    | OpenRoot
    | PreLstat
    | PreOpen
    | PreRead(ino: Ino)
    | AfterPreflight(same: bool)
    | CreateTemp(tries: nat)
    | WriteTemp
    | SyncTemp
    | Prepared
    | CheckCreate
    | LinkTarget
    | LinkRefused
    | TryOpen(attempt: nat)
    | TryRead(attempt: nat, ino: Ino)
    | TryLstat(attempt: nat)
    | TryRename(attempt: nat)
    | Pause(attempt: nat)
    | RemoveTemp
    | SyncCommitted(cleaned: bool)
    | Discard(outcome: Outcome)    // the deferred removal of a temporary that is still named
    | Done(outcome: Outcome)

  /** temp is the temporary's name while the call still has to remove it; own is its inode. */
  datatype Local = Local(pc: Pc, temp: Option<Name>, own: Option<Ino>, commits: nat)

  const START := Local(OpenRoot, None, None, 0)

  datatype Choice = Choice(
    cancelled: bool, fault: bool, retryable: bool, name: Name, linked: Option<Ino>, partial: bytes)

  function Stop(l: Local, outcome: Outcome): Local {
    l.(pc := if l.temp.Some? then Discard(outcome) else Done(outcome))
  }

  function Refuse(l: Local, code: Code): Local {
    Stop(l, Refused(code))
  }

  datatype Opened = Handle(ino: Ino) | OpenFailed(code: Code)

  /** Open and Stat, as in boundedDigest: a symbolic link is followed wherever it leads. */
  function OpenForDigest(fs: FS, path: Name, ch: Choice): Opened {
    if ch.fault || path !in fs.names then OpenFailed(ReadFailed)
    else match fs.names[path]
      case File(ino) => if ino in fs.files then Handle(ino) else OpenFailed(ReadFailed)
      case Symlink =>
        if ch.linked.Some? && ch.linked.value in fs.files then Handle(ch.linked.value) else OpenFailed(ReadFailed)
      case Directory => OpenFailed(NotRegular)
  }

  /** The bounded read and the comparison with the expected text; None when they agree. */
  function DigestProblem(c: Config, fs: FS, ino: Ino, expected: bytes, ch: Choice): Option<Code> {
    if ch.fault || ino !in fs.files then Some(ReadFailed)
    else if |fs.files[ino]| > c.maxWrite then Some(FileTooLarge)
    else if DigestText(c, fs.files[ino]) != expected then Some(Stale)
    else None
  }

  /** rename(2): the entry moves over the target, except that two names of one regular file stay as they are. */
  predicate RenameSucceeds(fs: FS, temp: Name, path: Name, ch: Choice) {
    && !ch.fault && temp in fs.names && fs.names[temp] != Directory
    && (path in fs.names ==> fs.names[path] != Directory)
  }

  function Rename(fs: FS, temp: Name, path: Name): FS
    requires temp in fs.names
  {
    if path in fs.names && fs.names[path].File? && fs.names[path] == fs.names[temp] then fs
    else fs.(names := (fs.names - {temp})[path := fs.names[temp]])
  }

  predicate LinkSucceeds(fs: FS, temp: Name, path: Name, ch: Choice) {
    !ch.fault && temp in fs.names && fs.names[temp] != Directory && path !in fs.names
  }

  function Remove(fs: FS, name: Name): FS {
    fs.(names := fs.names - {name})
  }

  /** Whether this step is the rename or link that commits. */
  predicate Commits(req: Request, l: Local, fs: FS, ch: Choice) {
    && l.temp.Some?
    && ((l.pc.LinkTarget? && LinkSucceeds(fs, l.temp.value, req.path, ch))
        || (l.pc.TryRename? && !ch.cancelled && RenameSucceeds(fs, l.temp.value, req.path, ch)))
  }

  predicate InPreflight(pc: Pc) {
    pc.OpenRoot? || pc.PreLstat? || pc.PreOpen? || pc.PreRead? || pc.AfterPreflight?
  }

  predicate InTemporary(pc: Pc) {
    pc.CreateTemp? || pc.WriteTemp? || pc.SyncTemp? || pc.Prepared?
  }

  predicate InCreate(pc: Pc) {
    pc.CheckCreate? || pc.LinkTarget? || pc.LinkRefused?
  }

  predicate InAttempt(pc: Pc) {
    pc.TryOpen? || pc.TryRead? || pc.TryLstat? || pc.TryRename? || pc.Pause?
  }

  function PreflightStep(c: Config, req: Request, l: Local, fs: FS, ch: Choice): Local
    requires InPreflight(l.pc)
  {
    match l.pc
    case OpenRoot => if ch.fault then Refuse(l, RootUnavailable) else l.(pc := PreLstat)
    case PreLstat =>
      if ch.fault then Refuse(l, PathUnavailable)
      else if req.mode.Create? then
        if req.path in fs.names then Refuse(l, AlreadyExists) else l.(pc := AfterPreflight(false))
      else if req.path !in fs.names then Refuse(l, NotFound)
      else if !fs.names[req.path].File? then Refuse(l, NotRegular)
      else l.(pc := PreOpen)
    case PreOpen =>
      (match OpenForDigest(fs, req.path, ch)
       case Handle(ino) => l.(pc := PreRead(ino))
       case OpenFailed(code) => Refuse(l, code))
    case PreRead(ino) =>
      if req.mode.Create? then Refuse(l, ReadFailed)
      else
        (match DigestProblem(c, fs, ino, req.mode.expected, ch)
         case Some(code) => Refuse(l, code)
         case None => l.(pc := AfterPreflight(req.mode.expected == DigestText(c, req.content))))
    case AfterPreflight(same) =>
      if ch.cancelled then Stop(l, Cancelled)
      else if same then Stop(l, Unchanged)
      else l.(pc := CreateTemp(0))
  }

  function TemporaryStep(req: Request, l: Local, fs: FS, ch: Choice): (Local, FS)
    requires InTemporary(l.pc)
  {
    match l.pc
    case CreateTemp(tries) =>
      if tries >= MAXIMUM_NAME_ATTEMPTS then (Refuse(l, TemporaryFailed), fs)
      else if ch.fault then (Refuse(l, TemporaryFailed), fs)
      else if ch.name in fs.names then (l.(pc := CreateTemp(tries + 1)), fs)
      else (l.(pc := WriteTemp, temp := Some(ch.name), own := Some(fs.next)),
            FS(fs.names[ch.name := File(fs.next)], fs.files[fs.next := []], fs.next + 1))
    case WriteTemp =>
      if ch.cancelled || l.own.None? then (Stop(l, Cancelled), fs)
      else if ch.fault then (Refuse(l, WriteFailed), fs.(files := fs.files[l.own.value := ch.partial]))
      else (l.(pc := SyncTemp), fs.(files := fs.files[l.own.value := req.content]))
    case SyncTemp =>
      if ch.fault then (Refuse(l, SyncFailed), fs)
      else if ch.cancelled then (Stop(l, Cancelled), fs)
      else (l.(pc := Prepared), fs)
    case Prepared =>
      if ch.cancelled then (Stop(l, Cancelled), fs)
      else (l.(pc := if req.mode.Create? then CheckCreate else TryOpen(0)), fs)
  }

  function CreateStep(req: Request, l: Local, fs: FS, ch: Choice): (Local, FS)
    requires InCreate(l.pc)
  {
    match l.pc
    case CheckCreate =>
      if ch.cancelled then (Stop(l, Cancelled), fs)
      else if ch.fault then (Refuse(l, PathUnavailable), fs)
      else if req.path in fs.names then (Refuse(l, AlreadyExists), fs)
      else (l.(pc := LinkTarget), fs)
    case LinkTarget =>
      if Commits(req, l, fs, ch)
      then (l.(pc := RemoveTemp, commits := l.commits + 1),
            fs.(names := fs.names[req.path := fs.names[l.temp.value]]))
      else (l.(pc := LinkRefused), fs)
    case LinkRefused =>
      (Refuse(l, if !ch.fault && req.path in fs.names then AlreadyExists else CreateFailed), fs)
  }

  function AttemptStep(c: Config, req: Request, l: Local, fs: FS, ch: Choice): (Local, FS)
    requires InAttempt(l.pc)
  {
    match l.pc
    case TryOpen(n) =>
      if ch.cancelled then (Stop(l, Cancelled), fs)
      else
        (match OpenForDigest(fs, req.path, ch)
         case Handle(ino) => (l.(pc := TryRead(n, ino)), fs)
         case OpenFailed(code) => (Refuse(l, code), fs))
    case TryRead(n, ino) =>
      if req.mode.Create? then (Refuse(l, ReadFailed), fs)
      else
        (match DigestProblem(c, fs, ino, req.mode.expected, ch)
         case Some(code) => (Refuse(l, code), fs)
         case None => (l.(pc := TryLstat(n)), fs))
    case TryLstat(n) =>
      if ch.fault || req.path !in fs.names || !fs.names[req.path].File? then (Refuse(l, Stale), fs)
      else (l.(pc := TryRename(n)), fs)
    case TryRename(n) =>
      if ch.cancelled then (Stop(l, Cancelled), fs)
      else if Commits(req, l, fs, ch)
      then (Local(SyncCommitted(true), None, l.own, l.commits + 1), Rename(fs, l.temp.value, req.path))
      else if !ch.retryable || n + 1 >= MAXIMUM_RENAME_ATTEMPTS then (Refuse(l, ReplaceFailed), fs)
      else (l.(pc := Pause(n)), fs)
    case Pause(n) =>
      if ch.cancelled then (Stop(l, Cancelled), fs) else (l.(pc := TryOpen(n + 1)), fs)
  }

  function ClosingStep(req: Request, l: Local, fs: FS, ch: Choice): (Local, FS)
    requires !InPreflight(l.pc) && !InTemporary(l.pc) && !InCreate(l.pc) && !InAttempt(l.pc)
  {
    match l.pc
    case RemoveTemp =>
      if ch.fault || l.temp.None? || l.temp.value !in fs.names then (l.(pc := SyncCommitted(false)), fs)
      else (l.(pc := SyncCommitted(true), temp := None), Remove(fs, l.temp.value))
    case SyncCommitted(cleaned) => (Stop(l, Committed(req.mode.Create?, cleaned, !ch.fault)), fs)
    case Discard(outcome) =>
      (l.(pc := Done(outcome)), if ch.fault || l.temp.None? then fs else Remove(fs, l.temp.value))
    case Done(_) => (l, fs)
  }

  function CallStep(c: Config, req: Request, l: Local, fs: FS, ch: Choice): (Local, FS) {
    if InPreflight(l.pc) then (PreflightStep(c, req, l, fs, ch), fs)
    else if InTemporary(l.pc) then TemporaryStep(req, l, fs, ch)
    else if InCreate(l.pc) then CreateStep(req, l, fs, ch)
    else if InAttempt(l.pc) then AttemptStep(c, req, l, fs, ch)
    else ClosingStep(req, l, fs, ch)
  }

  /** A call left alone by every other writer, driven by a script of choices. */
  function RunCall(c: Config, req: Request, l: Local, fs: FS, script: seq<Choice>): (Local, FS)
    decreases |script|
  {
    if script == [] then (l, fs)
    else
      var (l1, fs1) := CallStep(c, req, l, fs, script[0]);
      RunCall(c, req, l1, fs1, script[1..])
  }

  lemma {:induction false} RunCallAppend(c: Config, req: Request, l: Local, fs: FS, script: seq<Choice>, ch: Choice)
    ensures var (l1, fs1) := RunCall(c, req, l, fs, script);
            RunCall(c, req, l, fs, script + [ch]) == CallStep(c, req, l1, fs1, ch)
    decreases |script|
  {
    if script == [] {
      assert [ch][1..] == [] && script + [ch] == [ch];
    } else {
      var (l1, fs1) := CallStep(c, req, l, fs, script[0]);
      assert (script + [ch])[1..] == script[1..] + [ch];
      RunCallAppend(c, req, l1, fs1, script[1..], ch);
    }
  }

  /** What the model or the host is told. */
  datatype Reply =
    | Cancellation
    | Problem(code: Code)
    | Result(ok: bool, changed: bool, committed: bool, created: bool, durable: bool, temporaryCleaned: bool)
    | Undelivered(uncertain: bool)

  function ReplyTo(outcome: Outcome, encodable: bool): Reply {
    match outcome
    case Cancelled => Cancellation
    case Refused(code) => Problem(code)
    case Unchanged => if encodable then Result(true, false, false, false, true, true) else Undelivered(false)
    case Committed(created, cleaned, durable) =>
      if encodable then Result(cleaned && durable, true, true, created, durable, cleaned) else Undelivered(true)
  }

  /** Whether a reply admits that the file may have been changed. */
  predicate AdmitsCommit(reply: Reply) {
    (reply.Result? && reply.committed) || (reply.Undelivered? && reply.uncertain)
  }
}
