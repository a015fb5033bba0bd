/**
 When a replace can commit over content it was not asked to replace: only after
 another writer's step since that same attempt opened its target, and then it
 really can (replace.go).
 */
module ReplaceStaleness {
  import opened Common
  import opened ReplaceCall
  import opened ReplaceSafety
  import opened ReplaceEvents
  import opened ReplaceSerial
  import opened ReplaceProtocol

  // ---- a stale commit needs another writer ----

  /** The state in which the i-th action of the run is taken. */
  ghost function At(c: Config, s: State, run: seq<Action>, i: nat): State
    requires IsRun(c, s, run) && i <= |run|
    decreases i
  {
    if i == 0 then s else At(c, Step(c, s, run[0]), run[1..], i - 1)
  }

  ghost predicate Opens(s: State, a: Action, t: Tid) {
    a.Work? && a.t == t && Enabled(s, a) && s.calls[t].phase.l.pc.TryOpen?
  }

  /** The i-th action is the one with which call t's attempt opens its target. */
  ghost predicate OpensAt(c: Config, s: State, run: seq<Action>, i: nat, t: Tid)
    requires IsRun(c, s, run) && i < |run|
  {
    Opens(At(c, s, run, i), run[i], t)
  }

  /** Call t has opened its target and not yet renamed. */
  predicate Watching(s: State, t: Tid) {
    && t in s.calls && s.calls[t].phase.Critical?
    && (s.calls[t].phase.l.pc.TryRead? || s.calls[t].phase.l.pc.TryLstat? || s.calls[t].phase.l.pc.TryRename?)
  }

  /** A call watches only what it has just opened, or was watching already; only another writer lowers the flag. */
  lemma WatchStep(c: Config, s: State, a: Action, t: Tid)
    requires Enabled(s, a) && Watching(Step(c, s, a), t)
    ensures Opens(s, a, t) || Watching(s, t)
    ensures Opens(s, a, t) ==> Step(c, s, a).clean
    ensures s.clean && !a.Meddle? ==> Step(c, s, a).clean
  {
    if a.Work? && a.t == t && !InAttempt(s.calls[t].phase.l.pc) {
      OutsideAttempts(c, s.calls[t].req, s.calls[t].phase.l, s.fs, a.ch);
    }
  }

  /** The last opening of a call that is watching now; before it, or without it, only another writer lowers the flag. */
  lemma {:induction false} LastOpening(c: Config, s: State, run: seq<Action>, t: Tid) returns (found: bool, i: nat)
    requires IsRun(c, s, run) && Watching(After(c, s, run), t)
    ensures found ==> i < |run| && OpensAt(c, s, run, i, t)
    ensures forall k :: (if found then i < k else 0 <= k) && k < |run| ==> !OpensAt(c, s, run, k, t)
    ensures found && (forall j :: i < j < |run| ==> !run[j].Meddle?) ==> After(c, s, run).clean
    ensures !found ==> Watching(s, t)
    ensures !found && s.clean && (forall j :: 0 <= j < |run| ==> !run[j].Meddle?) ==> After(c, s, run).clean
    decreases |run|
  {
    found, i := false, 0;
    if run != [] {
      var s1, rest := Step(c, s, run[0]), run[1..];
      var later, i1 := LastOpening(c, s1, rest, t);
      forall k | 0 <= k < |rest| ensures OpensAt(c, s, run, k + 1, t) <==> OpensAt(c, s1, rest, k, t) {
      }
      assert forall k :: 1 <= k < |run| ==> (OpensAt(c, s, run, k, t) <==> OpensAt(c, s1, rest, k - 1, t));
      assert forall j :: 0 <= j < |rest| ==> rest[j] == run[j + 1];
      if later {
        found, i := true, i1 + 1;
      } else {
        WatchStep(c, s, run[0], t);
        found := Opens(s, run[0], t);
        assert OpensAt(c, s, run, 0, t) <==> found;
      }
    }
  }

  /**
   If a replace commits over anything but a regular file with the expected digest,
   another writer has stepped, at j, since that same attempt opened the target, at i:
   i is the last time the call did so.
   */
  lemma StaleCommitNeedsAnotherWriter(c: Config, fs0: FS, run: seq<Action>, a: Action, t: Tid) returns (i: nat, j: nat)
    requires WellFormed(fs0) && IsRun(c, Initial(fs0), run)
    requires var s := After(c, Initial(fs0), run);
             CommitStep(s, a, t) && s.calls[t].req.mode.Replace? && !Fresh(c, s.calls[t].req, s.fs)
    ensures !After(c, Initial(fs0), run).clean
    ensures i < j < |run| && OpensAt(c, Initial(fs0), run, i, t) && run[j].Meddle?
    ensures forall k :: i < k < |run| ==> !OpensAt(c, Initial(fs0), run, k, t)
  {
    RunKeepsInv(c, Initial(fs0), run);
    var s := After(c, Initial(fs0), run);
    assert HolderOk(c, s, t);
    assert Watching(s, t);
    var found;
    found, i := LastOpening(c, Initial(fs0), run, t);
    j :| i < j < |run| && run[j].Meddle?;
  }

  // ---- and a writer between that open and the read is enough ----

  function Works(t: Tid, script: seq<Choice>): (run: seq<Action>)
    ensures |run| == |script|
    ensures forall i :: 0 <= i < |run| ==> run[i] == Work(t, script[i])
  {
    seq(|script|, i requires 0 <= i < |script| => Work(t, script[i]))
  }

  /** A call that works on undisturbed goes where the call machine goes. */
  lemma {:induction false} WorksRun(c: Config, s: State, t: Tid, script: seq<Choice>)
    requires t in s.calls && s.calls[t].phase.Critical?
    requires !RunCall(c, s.calls[t].req, s.calls[t].phase.l, s.fs, script).0.pc.Done?
    ensures IsRun(c, s, Works(t, script))
    ensures var s1 := After(c, s, Works(t, script));
            && t in s1.calls && s1.calls[t].phase.Critical? && s1.calls[t].req == s.calls[t].req
            && (s1.calls[t].phase.l, s1.fs) == RunCall(c, s.calls[t].req, s.calls[t].phase.l, s.fs, script)
    decreases |script|
  {
    if script != [] {
      var l := s.calls[t].phase.l;
      if l.pc.Done? {
        DoneStays(c, s.calls[t].req, l, s.fs, script, EndedContext);
      }
      assert Works(t, script)[1..] == Works(t, script[1..]);
      WorksRun(c, Step(c, s, Work(t, script[0])), t, script[1..]);
    }
  }

  lemma {:induction false} RunsCompose(c: Config, s: State, first: seq<Action>, second: seq<Action>)
    requires IsRun(c, s, first) && IsRun(c, After(c, s, first), second)
    ensures IsRun(c, s, first + second) && After(c, s, first + second) == After(c, After(c, s, first), second)
    decreases |first|
  {
    if first == [] {
      assert first + second == second;
    } else {
      assert (first + second)[1..] == first[1..] + second;
      RunsCompose(c, Step(c, s, first[0]), first[1..], second);
    }
  }

  /** What the other writer does: the entry leads to a new file with this content. */
  function Swapped(fs: FS, path: Name, content: bytes): FS {
    FS(fs.names[path := File(fs.next)], fs.files[fs.next := content], fs.next + 1)
  }

  /** A run that takes a fresh replace to the read of its first attempt, the target open and nobody else about. */
  lemma ReachesRead(c: Config, fs0: FS, req: Request, ch: Choice) returns (run: seq<Action>)
    requires WellFormed(fs0) && Fresh(c, req, fs0) && !SameDigest(c, req) && Benign(req, fs0, ch)
    ensures IsRun(c, Initial(fs0), run) && Undisturbed(run)
    ensures var s := After(c, Initial(fs0), run);
            && 0 in s.calls && s.calls[0].phase.Critical? && s.calls[0].req == req
            && s.calls[0].phase.l.pc.TryRead? && OnCourse(c, req, fs0, s.calls[0].phase.l, s.fs)
  {
    AloneAtStart(c, req, fs0);
    var script := CourseReaches(c, req, fs0, START, fs0, ch);
    var s1 := Step(c, Initial(fs0), Arrive(0, req));
    var s2 := Step(c, s1, Acquire(0));
    var entry := [Arrive(0, req), Acquire(0)];
    assert IsRun(c, s1, [Acquire(0)]) && After(c, s1, [Acquire(0)]) == s2 by {
      assert [Acquire(0)][1..] == [] && IsRun(c, s2, []);
    }
    assert entry[1..] == [Acquire(0)];
    WorksRun(c, s2, 0, script);
    RunsCompose(c, Initial(fs0), entry, Works(0, script));
    run := entry + Works(0, script);
  }

  /** Three more steps of the attempt, the first two up to the rename, after the swap. */
  lemma SwappedAttempt(c: Config, req: Request, fs0: FS, l: Local, fs: FS, content: bytes, ch: Choice)
    requires OnCourse(c, req, fs0, l, fs) && l.pc.TryRead? && req.mode.Replace? && Benign(req, fs0, ch)
    ensures var swapped := Swapped(fs, req.path, content);
            var (l1, fs1) := RunCall(c, req, l, swapped, [ch, ch]);
            && WellFormed(swapped) && fs1 == swapped && l1.pc.TryRename? && Commits(req, l1, fs1, ch)
  {
    var swapped := Swapped(fs, req.path, content);
    assert [ch, ch][1..] == [ch] && [ch][1..] == [];
    assert fs.names[req.path] == File(l.pc.ino) && l.pc.ino != fs.next;
    assert Fresh(c, req, fs);
    var (l1, fs1) := CallStep(c, req, l, swapped, ch);
    assert l1 == l.(pc := TryLstat(l.pc.attempt)) && fs1 == swapped;
    var (l2, fs2) := CallStep(c, req, l1, swapped, ch);
    assert l2 == l.(pc := TryRename(l.pc.attempt)) && fs2 == swapped;
    assert RunCall(c, req, l1, swapped, [ch]) == (l2, swapped);
  }

  /**
   Every replace that could go ahead has a run from the start in which the only step
   of another writer stands between the attempt's open and its read, and in which
   the call then commits over content whose digest is not the expected one.
   */
  lemma WriterBeforeReadIsOverwritten(c: Config, fs0: FS, req: Request, content: bytes, ch: Choice)
    returns (before: seq<Action>, run: seq<Action>, a: Action)
    requires WellFormed(fs0) && Fresh(c, req, fs0) && !SameDigest(c, req) && Benign(req, fs0, ch)
    requires DigestText(c, content) != req.mode.expected
    ensures IsRun(c, Initial(fs0), before) && Undisturbed(before)
    ensures var s := After(c, Initial(fs0), before);
            && 0 in s.calls && s.calls[0].phase.Critical? && s.calls[0].phase.l.pc.TryRead?
            && run == before + [Meddle(Swapped(s.fs, req.path, content)), Work(0, ch), Work(0, ch)]
    ensures IsRun(c, Initial(fs0), run)
    ensures var s := After(c, Initial(fs0), run);
            CommitStep(s, a, 0) && s.calls[0].req == req && !Fresh(c, req, s.fs)
  {
    before := ReachesRead(c, fs0, req, ch);
    var s := After(c, Initial(fs0), before);
    var l, swapped := s.calls[0].phase.l, Swapped(s.fs, req.path, content);
    SwappedAttempt(c, req, fs0, l, s.fs, content, ch);
    var s1 := Step(c, s, Meddle(swapped));
    var works := Works(0, [ch, ch]);
    WorksRun(c, s1, 0, [ch, ch]);
    assert works == [Work(0, ch), Work(0, ch)];
    var rest := [Meddle(swapped)] + works;
    assert rest[1..] == works && rest == [Meddle(swapped), Work(0, ch), Work(0, ch)];
    RunsCompose(c, Initial(fs0), before, rest);
    run := before + rest;
    a := Work(0, ch);
  }
}
