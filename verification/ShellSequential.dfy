/**
 The steps of a join taken without interruption are the shell tool's own methods:
 the interleaving model and the mutable tool agree on waitOwned and on its retry.
 */
module ShellSequential {
  import opened Common
  import opened Ownership
  import opened ShellProtocol

  function StepsLeft(j: Join): nat {
    match j
    case Checking(_) => 3
    case Waiting(_) => 2
    case Releasing(_) => 1
    case Caching(_, _) => 1
    case Ended(_, _) => 0
  }

  /** All the steps of waitOwned, one after another. */
  function JoinAlone(s: State, j: Join, answer: WaitResult): (State, Join)
    decreases StepsLeft(j)
  {
    if j.Ended? then (s, j)
    else
      var (s1, j1) := AdvanceJoin(s, j, answer);
      JoinAlone(s1, j1, answer)
  }

  function Cached(s: State, r: RecordId): Option<Failure> {
    if r in s.terminal then Some(s.terminal[r]) else None
  }

  /** The state that differs from s as waitOwned left record r. */
  function AfterWaited(s: State, r: RecordId, answer: WaitResult, w: Waited<RecordId>): State {
    s.(shell := w.shell,
       terminal := if w.terminal.Some? then s.terminal[r := w.terminal.value] else s.terminal,
       waits := if w.called then s.waits[r := History(s, r) + [answer]] else s.waits)
  }

  /** Uninterrupted, the steps from Checking to Ended do what the tool's WaitOwned does. */
  lemma JoinAloneIsWaitOwned(s: State, r: RecordId, answer: WaitResult)
    ensures var w := WaitedAlone(s.shell, r, Cached(s, r), answer);
            JoinAlone(s, Checking(r), answer) == (AfterWaited(s, r, answer, w), Ended(r, w.result))
  {
    var (s1, j1) := AdvanceJoin(s, Checking(r), answer);
    if j1.Ended? {
      assert s.terminal[r := s.terminal[r]] == s.terminal;
    } else {
      var (s2, j2) := AdvanceJoin(s1, j1, answer);
      assert JoinAlone(s1, j1, answer) == JoinAlone(s2, j2, answer);
      if !j2.Ended? {
        var (s3, j3) := AdvanceJoin(s2, j2, answer);
        assert JoinAlone(s2, j2, answer) == (s3, j3);
      }
    }
  }

  /** A cleanup's retry loop on one record: join, and join again while the failure is retryable and the context lives. */
  function RetryAlone(s: State, th: Thread, answers: seq<WaitAnswer>): (State, Thread)
    requires th.CleanupJoining? && th.join.Checking?
    decreases |answers|
  {
    if answers == [] then (s, th)
    else
      var (s1, j1) := JoinAlone(s, th.join, answers[0].result);
      assert j1.Ended? && j1.record == th.join.record by { JoinAloneIsWaitOwned(s, th.join.record, answers[0].result); }
      var th1 := AfterWaitOwned(WithJoin(th, j1), answers[0].contextEnded);
      if th1.CleanupJoining? then RetryAlone(s1, th1, answers[1..]) else (s1, th1)
  }

  function Results(answers: seq<WaitAnswer>): (h: seq<WaitResult>)
    ensures |h| == |answers|
  {
    seq(|answers|, i requires 0 <= i < |answers| => answers[i].result)
  }

  /** What cleanup does next with its record decided by this answer. */
  function AfterRecord(th: Thread, last: WaitAnswer, result: WaitResult): Thread
    requires th.CleanupJoining?
  {
    if last.contextEnded then Returning(false) else Looping(th.rest, th.failed || result.Failed?)
  }

  /** One answer that decides ends the loop. */
  lemma DecidedAtOnce(s: State, th: Thread, answers: seq<WaitAnswer>)
    requires th.CleanupJoining? && th.join.Checking? && th.join.record !in s.terminal
    requires answers != [] && Decisive(answers[0])
    ensures var r, answer := th.join.record, answers[0];
            var w := WaitedAlone(s.shell, r, None, answer.result);
            RetryAlone(s, th, answers) == (AfterWaited(s, r, answer.result, w), AfterRecord(th, answer, w.result))
  {
    JoinAloneIsWaitOwned(s, th.join.record, answers[0].result);
  }

  /** One that does not is recorded, and the loop goes on. */
  lemma UndecidedGoesOn(s: State, th: Thread, answers: seq<WaitAnswer>)
    requires th.CleanupJoining? && th.join.Checking? && th.join.record !in s.terminal
    requires answers != [] && !Decisive(answers[0])
    ensures var r := th.join.record;
            var s1 := s.(waits := s.waits[r := History(s, r) + [answers[0].result]]);
            RetryAlone(s, th, answers) == RetryAlone(s1, th, answers[1..])
  {
    JoinAloneIsWaitOwned(s, th.join.record, answers[0].result);
  }

  /** Wait has been called up to the k-th answer, which decided; every other record is as it was. */
  ghost predicate Retried(s: State, th: Thread, answers: seq<WaitAnswer>, k: nat, s1: State, th1: Thread)
    requires th.CleanupJoining? && k < |answers|
  {
    var r := th.join.record;
    var w := WaitedAlone(s.shell, r, None, answers[k].result);
    && s1.shell == w.shell && Cached(s1, r) == w.terminal
    && History(s1, r) == History(s, r) + Results(answers[..k + 1])
    && th1 == AfterRecord(th, answers[k], w.result)
    && forall x :: x != r ==> Cached(s1, x) == Cached(s, x) && History(s1, x) == History(s, x)
  }

  lemma RetriedAtOnce(s: State, th: Thread, answers: seq<WaitAnswer>)
    requires th.CleanupJoining? && th.join.Checking? && th.join.record !in s.terminal
    requires answers != [] && Decisive(answers[0])
    ensures var (s1, th1) := RetryAlone(s, th, answers); Retried(s, th, answers, 0, s1, th1)
  {
    DecidedAtOnce(s, th, answers);
    assert Results(answers[..1]) == [answers[0].result];
  }

  lemma RetriedLater(s: State, th: Thread, answers: seq<WaitAnswer>, k: nat, s0: State, s1: State, th1: Thread)
    requires th.CleanupJoining? && 0 < k < |answers|
    requires s0 == s.(waits := s.waits[th.join.record := History(s, th.join.record) + [answers[0].result]])
    requires Retried(s0, th, answers[1..], k - 1, s1, th1)
    ensures Retried(s, th, answers, k, s1, th1)
  {
    assert Results(answers[..k + 1]) == [answers[0].result] + Results(answers[1..][..k]);
    forall x | x != th.join.record ensures Cached(s0, x) == Cached(s, x) && History(s0, x) == History(s, x) {
    }
  }

  /**
   Uninterrupted, that loop does what the tool's RetryWaitOwned does: it calls Wait
   up to the first decisive answer, whose result alone decides what becomes of the
   record, and leaves every other record as it was.
   */
  lemma {:induction false} RetryAloneIsRetryWaitOwned(s: State, th: Thread, answers: seq<WaitAnswer>)
    requires th.CleanupJoining? && th.join.Checking? && th.join.record !in s.terminal && Resolves(answers)
    ensures var (s1, th1) := RetryAlone(s, th, answers);
            Retried(s, th, answers, FirstDecisive(answers), s1, th1)
    decreases |answers|
  {
    var r, k := th.join.record, FirstDecisive(answers);
    if Decisive(answers[0]) {
      RetriedAtOnce(s, th, answers);
    } else {
      UndecidedGoesOn(s, th, answers);
      assert Resolves(answers[1..]) by {
        assert answers[1..][k - 1] == answers[k];
      }
      var s0 := s.(waits := s.waits[r := History(s, r) + [answers[0].result]]);
      RetryAloneIsRetryWaitOwned(s0, th, answers[1..]);
      var (s1, th1) := RetryAlone(s0, th, answers[1..]);
      RetriedLater(s, th, answers, k, s0, s1, th1);
    }
  }

  /** A record whose terminal failure is cached is left as it is, and Wait is not called. */
  lemma RetryAloneOnDead(s: State, th: Thread, answers: seq<WaitAnswer>)
    requires th.CleanupJoining? && th.join.Checking? && th.join.record in s.terminal && answers != []
    requires IsTerminal(s.terminal[th.join.record])
    ensures RetryAlone(s, th, answers) == (s, AfterRecord(th, answers[0], Failed(s.terminal[th.join.record])))
  {
    var failure := s.terminal[th.join.record];
    assert JoinAlone(s, th.join, answers[0].result) == (s, Ended(th.join.record, Failed(failure)));
  }

  /** Cleanup's loop over its snapshot, one record after another. */
  function LoopRun(s: State, th: Thread, answers: seq<seq<WaitAnswer>>): (State, Thread)
    requires th.Looping?
    decreases |answers|
  {
    if th.rest == [] then (s, Returning(!th.failed))
    else if answers == [] then (s, th)
    else
      var (s1, th1) := RetryAlone(s, CleanupJoining(Checking(th.rest[0]), th.rest[1..], th.failed), answers[0]);
      if th1.Looping? then LoopRun(s1, th1, answers[1..]) else (s1, th1)
  }

  /** These tasks are to join these records of the model. */
  ghost predicate TasksOf(s: State, tasks: seq<Task<RecordId>>, rest: seq<RecordId>, answers: seq<seq<WaitAnswer>>) {
    && DecidedBy(tasks, answers) && Records(tasks) == rest
    && forall i :: 0 <= i < |tasks| ==> tasks[i].cached == Cached(s, rest[i])
  }

  ghost predicate OnlyTerminalCached(s: State) {
    forall r :: r in s.terminal ==> IsTerminal(s.terminal[r])
  }

  /** One round of the model's loop performs the next task and touches no other record. */
  lemma RoundPerforms(s: State, th: Thread, answers: seq<WaitAnswer>, task: Task<RecordId>)
    requires th.CleanupJoining? && th.join == Checking(task.record) && OnlyTerminalCached(s) && Resolves(answers)
    requires task.cached == Cached(s, task.record) && task.last == LastAnswer(task.cached, answers)
    ensures var (s1, th1) := RetryAlone(s, th, answers);
            var w := Performed(s.shell, task);
            && s1.shell == w.shell && th1 == AfterRecord(th, task.last, w.result) && OnlyTerminalCached(s1)
            && forall x :: x != task.record ==> Cached(s1, x) == Cached(s, x)
  {
    if task.cached.Some? {
      RetryAloneOnDead(s, th, answers);
    } else {
      RetryAloneIsRetryWaitOwned(s, th, answers);
      var s1 := RetryAlone(s, th, answers).0;
      forall r | r in s1.terminal ensures IsTerminal(s1.terminal[r]) {
        assert Cached(s1, r) == Some(s1.terminal[r]);
        if r != task.record {
          assert Cached(s1, r) == Cached(s, r);
        }
      }
    }
  }

  /** Uninterrupted, cleanup's loop in the model does what the tool's JoinSnapshot does. */
  lemma {:induction false} LoopRunIsJoinSnapshot(s: State, th: Thread, tasks: seq<Task<RecordId>>, answers: seq<seq<WaitAnswer>>)
    requires th.Looping? && Distinct(th.rest) && OnlyTerminalCached(s) && TasksOf(s, tasks, th.rest, answers)
    ensures var (s1, th1) := LoopRun(s, th, answers);
            var (shell, ok) := LoopAlone(s.shell, tasks, th.failed);
            s1.shell == shell && th1 == Returning(ok)
    decreases |answers|
  {
    if th.rest != [] {
      var th0 := CleanupJoining(Checking(th.rest[0]), th.rest[1..], th.failed);
      assert tasks[0].record == th.rest[0];
      RoundPerforms(s, th0, answers[0], tasks[0]);
      var (s1, th1) := RetryAlone(s, th0, answers[0]);
      if th1.Looping? {
        assert TasksOf(s1, tasks[1..], th1.rest, answers[1..]) by {
          assert Records(tasks[1..]) == th1.rest;
          forall i | 0 <= i < |tasks| - 1 ensures tasks[1..][i].cached == Cached(s1, th1.rest[i]) {
            assert th1.rest[i] == th.rest[i + 1] && th.rest[i + 1] != th.rest[0];
          }
        }
        LoopRunIsJoinSnapshot(s1, th1, tasks[1..], answers[1..]);
      }
    }
  }
}
