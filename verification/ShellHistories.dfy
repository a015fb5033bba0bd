/** What is known of each record's Wait history in every reachable state. */
module ShellHistories {
  import opened Common
  import opened Ownership
  import opened Outcomes
  import opened ShellProtocol
  import opened ShellInvariant

  ghost predicate Retryables(h: seq<WaitResult>) {
    forall i :: 0 <= i < |h| ==> IsRetryable(h[i])
  }

  ghost predicate EndsIn(h: seq<WaitResult>, last: WaitResult) {
    h != [] && h[|h| - 1] == last && Retryables(h[..|h| - 1])
  }

  /** Owned, and every join so far failed retryably. */
  ghost predicate Open(s: State, r: RecordId) {
    r in s.shell.owned && r !in s.terminal && Retryables(History(s, r))
  }

  /** Owned for good: its last join failed terminally and that failure is cached. */
  ghost predicate Dead(s: State, r: RecordId) {
    && r in s.shell.owned && r in s.terminal
    && IsTerminal(s.terminal[r]) && EndsIn(History(s, r), Failed(s.terminal[r]))
  }

  ghost predicate SomeDead(s: State) {
    exists r :: Dead(s, r)
  }

  /** Released, after a successful join. */
  ghost predicate Gone(s: State, r: RecordId) {
    r in s.retained && r !in s.shell.owned && r !in s.terminal && EndsIn(History(s, r), Joined)
  }

  ghost predicate JoinOk(s: State, j: Join) {
    match j
    case Checking(r) => Open(s, r) || Dead(s, r)
    case Waiting(r) => Open(s, r)
    case Releasing(r) => r in s.shell.owned && r !in s.terminal && EndsIn(History(s, r), Joined)
    case Caching(r, error) =>
      r in s.shell.owned && r !in s.terminal && IsTerminal(error) && EndsIn(History(s, r), Failed(error))
    case Ended(r, result) =>
      if result == Joined then Gone(s, r)
      else if IsTerminal(result.error) then Dead(s, r) && s.terminal[r] == result.error
      else Open(s, r)
  }

  ghost predicate Unjoined(s: State, rest: seq<RecordId>) {
    Distinct(rest) && forall r :: r in rest ==> Open(s, r) || Dead(s, r)
  }

  ghost predicate ThreadOk(s: State, th: Thread) {
    match th
    case Holding(r, _) => Open(s, r)
    case RunJoining(j, path) => JoinOk(s, j) && Possible(path) && Starts(path)
    case Finishing(_, report) => ReportOk(s, report)
    case Finished(report) => ReportOk(s, report)
    case Looping(rest, failed) =>
      Unjoined(s, rest) && (if failed then SomeDead(s) else Elements(s.shell.owned) <= Elements(rest))
    case CleanupJoining(j, rest, failed) =>
      && JoinOk(s, j) && Unjoined(s, rest) && j.record !in rest
      && (if failed then SomeDead(s) else Elements(s.shell.owned) <= Elements(rest) + {j.record})
    case Returning(ok) => ok ==> s.shell.owned == []
    case Cleaned(ok) => ok ==> s.shell.owned == []
    case _ => true
  }

  ghost predicate ReportOk(s: State, report: Report) {
    report.Ran? ==>
      && Possible(report.path)
      && (Starts(report.path) <==> report.record.Some?)
      && (report.record.Some? && report.result == Joined ==> Gone(s, report.record.value))
  }

  predicate Transit(th: Thread, r: RecordId) {
    th.JoinOf().Some? && (th.join.Releasing? || th.join.Caching?) && th.join.record == r
  }

  ghost predicate InTransit(s: State, r: RecordId) {
    exists t :: t in s.threads && Transit(s.threads[t], r)
  }

  ghost predicate Settled(s: State, r: RecordId) {
    Open(s, r) || Dead(s, r) || Gone(s, r)
  }

  ghost predicate HistoriesOk(s: State) {
    && s.waits.Keys <= s.retained && s.terminal.Keys <= s.retained
    && (forall t :: t in s.threads ==> ThreadOk(s, s.threads[t]))
    && (forall r :: r in s.retained ==> Settled(s, r) || InTransit(s, r))
  }

  ghost predicate Inv(s: State) {
    && Counted(s) && Latched(s) && WithinBudget(s)
    && TokenHeld(s) && DoorClosed(s) && DrainHolds(s) && RecordsKnown(s)
    && HistoriesOk(s)
  }

  // ---- steps that touch no record ----

  ghost predicate SameRecords(s: State, s': State) {
    && s'.shell.owned == s.shell.owned && s'.retained == s.retained
    && s'.waits == s.waits && s'.terminal == s.terminal
  }

  lemma SameThread(s: State, s': State, th: Thread)
    requires SameRecords(s, s') && ThreadOk(s, th)
    ensures ThreadOk(s', th)
  {
    assert forall r :: Open(s, r) ==> Open(s', r);
    assert forall r :: Dead(s, r) ==> Dead(s', r);
    assert forall r :: Gone(s, r) ==> Gone(s', r);
    if th.JoinOf().Some? {
      assert JoinOk(s', th.join);
    }
    if SomeDead(s) {
      var r :| Dead(s, r);
      assert Dead(s', r);
    }
  }

  lemma MoveKeepsHistories(s: State, s': State, t: Tid)
    requires HistoriesOk(s) && SameRecords(s, s')
    requires t in s'.threads && s'.threads == s.threads[t := s'.threads[t]]
    requires ThreadOk(s, s'.threads[t])
    requires t in s.threads ==> forall r :: !Transit(s.threads[t], r)
    ensures HistoriesOk(s')
  {
    forall u | u in s'.threads ensures ThreadOk(s', s'.threads[u]) {
      SameThread(s, s', s'.threads[u]);
    }
    forall r | r in s'.retained ensures Settled(s', r) || InTransit(s', r) {
      if !Settled(s, r) {
        var u :| u in s.threads && Transit(s.threads[u], r);
        assert u in s'.threads && Transit(s'.threads[u], r);
      }
    }
  }

  // ---- steps inside a join ----

  /** Nothing another thread knows depends on record r. */
  ghost predicate Silent(th: Thread, r: RecordId) {
    && (th.Holding? ==> th.record != r)
    && (th.RunJoining? ==> th.join.record != r)
    && !th.Looping? && !th.CleanupJoining?
    && ((th.Finishing? || th.Finished?) && th.report.Ran? && th.report.record == Some(r) ==> th.report.result != Joined)
  }

  /** At most one thread is concerned with a record while it is being joined. */
  lemma OthersSilent(s: State, t: Tid, u: Tid)
    requires Inv(s) && t in s.threads && u in s.threads && t != u
    requires s.threads[t].JoinOf().Some? && !s.threads[t].join.Ended?
    ensures Silent(s.threads[u], s.threads[t].join.record)
  {
    var th, other := s.threads[t], s.threads[u];
    assert ThreadOk(s, th) && ThreadOk(s, other);
    if th.RunJoining? {
      ActiveMember(s, t);
      assert other.RunRecord() != th.RunRecord();
    } else {
      if other.Active() {
        ActiveMember(s, u);
      }
      assert th.join.record in s.shell.owned;
    }
  }

  ghost predicate SameElsewhere(s: State, s': State, r: RecordId) {
    && s'.retained == s.retained
    && Elements(s'.shell.owned) <= Elements(s.shell.owned)
    && forall x :: x != r ==>
         && (x in s'.shell.owned <==> x in s.shell.owned)
         && History(s', x) == History(s, x)
         && (x in s'.terminal <==> x in s.terminal)
         && (x in s.terminal ==> s'.terminal[x] == s.terminal[x])
  }

  lemma ElsewhereKept(s: State, s': State, r: RecordId, x: RecordId)
    requires SameElsewhere(s, s', r) && x != r
    ensures Open(s, x) ==> Open(s', x)
    ensures Dead(s, x) ==> Dead(s', x)
    ensures Gone(s, x) ==> Gone(s', x)
  {
  }

  lemma SilentKept(s: State, s': State, r: RecordId, th: Thread)
    requires SameElsewhere(s, s', r) && Silent(th, r) && ThreadOk(s, th)
    ensures ThreadOk(s', th)
  {
    match th
    case Holding(x, _) => ElsewhereKept(s, s', r, x);
    case RunJoining(j, _) =>
      ElsewhereKept(s, s', r, j.record);
      assert History(s', j.record) == History(s, j.record);
    case Finishing(_, report) =>
      if report.Ran? && report.record.Some? && report.result == Joined {
        ElsewhereKept(s, s', r, report.record.value);
      }
    case Finished(report) =>
      if report.Ran? && report.record.Some? && report.result == Joined {
        ElsewhereKept(s, s', r, report.record.value);
      }
    case Returning(_) => NoneOwned(s, s');
    case Cleaned(_) => NoneOwned(s, s');
    case _ =>
  }

  lemma NoneOwned(s: State, s': State)
    requires Elements(s'.shell.owned) <= Elements(s.shell.owned)
    ensures s.shell.owned == [] ==> s'.shell.owned == []
  {
    if s'.shell.owned != [] {
      assert s'.shell.owned[0] in Elements(s'.shell.owned);
    }
  }

  /** One step of waitOwned: its record keeps a lawful history, every other record is left alone. */
  ghost predicate Advanced(s: State, s1: State, r: RecordId, j1: Join) {
    && j1.record == r
    && SameElsewhere(s, s1, r)
    && JoinOk(s1, j1)
    && (Settled(s1, r) || j1.Releasing? || j1.Caching?)
  }

  lemma ExtendedHistory(h: seq<WaitResult>, answer: WaitResult)
    requires Retryables(h)
    ensures IsRetryable(answer) ==> Retryables(h + [answer])
    ensures EndsIn(h + [answer], answer)
  {
    assert (h + [answer])[..|h|] == h;
  }

  /** An answer to Wait is appended to its record's history and to no other. */
  lemma AnswerIsRecorded(s: State, j: Join, answer: WaitResult)
    requires j.Waiting?
    ensures var s1 := AdvanceJoin(s, j, answer).0;
            && s1.shell == s.shell && s1.terminal == s.terminal && s1.retained == s.retained
            && History(s1, j.record) == History(s, j.record) + [answer]
            && SameElsewhere(s, s1, j.record)
  {
  }

  lemma WaitAdvances(s: State, j: Join, answer: WaitResult)
    requires j.Waiting? && JoinOk(s, j)
    ensures var (s1, j1) := AdvanceJoin(s, j, answer); Advanced(s, s1, j.record, j1)
  {
    AnswerIsRecorded(s, j, answer);
    ExtendedHistory(History(s, j.record), answer);
    var (s1, j1) := AdvanceJoin(s, j, answer);
    if IsRetryable(answer) {
      assert j1 == Ended(j.record, answer) && Open(s1, j.record);
    }
  }

  lemma ReleaseAdvances(s: State, j: Join, answer: WaitResult)
    requires j.Releasing? && JoinOk(s, j)
    requires Distinct(s.shell.owned) && Elements(s.shell.owned) <= s.retained
    ensures var (s1, j1) := AdvanceJoin(s, j, answer); Advanced(s, s1, j.record, j1)
  {
    var (s1, j1) := AdvanceJoin(s, j, answer);
    WithoutDistinct(s.shell.owned, j.record);
    assert j.record in Elements(s.shell.owned);
    assert forall x :: x in s1.shell.owned <==> x in Elements(s1.shell.owned);
    assert forall x :: x in s.shell.owned <==> x in Elements(s.shell.owned);
  }

  lemma JoinAdvances(s: State, j: Join, answer: WaitResult)
    requires !j.Ended? && JoinOk(s, j)
    requires Distinct(s.shell.owned) && Elements(s.shell.owned) <= s.retained
    ensures var (s1, j1) := AdvanceJoin(s, j, answer); Advanced(s, s1, j.record, j1)
  {
    match j
    case Checking(_) =>
    case Waiting(_) => WaitAdvances(s, j, answer);
    case Releasing(_) => ReleaseAdvances(s, j, answer);
    case Caching(_, _) =>
  }

  lemma CleanupKeepsRest(s: State, s': State, r: RecordId, rest: seq<RecordId>)
    requires SameElsewhere(s, s', r) && Unjoined(s, rest) && r !in rest
    ensures Unjoined(s', rest)
  {
    forall x | x in rest ensures Open(s', x) || Dead(s', x) {
      ElsewhereKept(s, s', r, x);
    }
  }

  /** A record that is dead stays dead while another, or itself, is asked about. */
  lemma DeadKept(s: State, s1: State, j: Join, answer: WaitResult)
    requires !j.Ended? && JoinOk(s, j) && SomeDead(s) && s1 == AdvanceJoin(s, j, answer).0
    requires SameElsewhere(s, s1, j.record)
    ensures SomeDead(s1)
  {
    var r :| Dead(s, r);
    if r == j.record {
      assert s1 == s;
    } else {
      ElsewhereKept(s, s1, j.record, r);
    }
  }

  lemma JoinerKept(s: State, s1: State, th: Thread, j1: Join)
    requires th.JoinOf().Some? && ThreadOk(s, th) && Advanced(s, s1, th.join.record, j1)
    requires SomeDead(s) ==> SomeDead(s1)
    ensures ThreadOk(s1, WithJoin(th, j1))
  {
    if th.CleanupJoining? {
      CleanupKeepsRest(s, s1, th.join.record, th.rest);
    }
  }

  /** Moving the thread on changes nothing about records. */
  lemma RecordsStay(s1: State, s': State, r: RecordId)
    requires SameRecords(s1, s')
    ensures Open(s1, r) ==> Open(s', r)
    ensures Dead(s1, r) ==> Dead(s', r)
    ensures Gone(s1, r) ==> Gone(s', r)
    ensures History(s', r) == History(s1, r)
  {
  }

  lemma AdvancedThenMoved(s: State, s1: State, s': State, r: RecordId, j1: Join)
    requires Advanced(s, s1, r, j1) && SameRecords(s1, s')
    ensures Advanced(s, s', r, j1)
  {
    RecordsStay(s1, s', r);
    assert JoinOk(s', j1);
    forall x | x != r ensures History(s', x) == History(s, x) {
      RecordsStay(s1, s', x);
    }
  }

  lemma AdvanceKeepsKeys(s: State, j: Join, answer: WaitResult)
    requires !j.Ended? && j.record in s.retained
    requires s.waits.Keys <= s.retained && s.terminal.Keys <= s.retained
    ensures var s1 := AdvanceJoin(s, j, answer).0;
            s1.waits.Keys <= s1.retained && s1.terminal.Keys <= s1.retained
  {
  }

  /** One step of waitOwned moves its own thread and no other. */
  lemma AdvanceMoves(s: State, a: Action)
    requires Enabled(s, a) && a.Advance?
    ensures var (s1, j1) := AdvanceJoin(s, s.threads[a.t].join, a.answer);
            && SameRecords(s1, Step(s, a))
            && Step(s, a).threads == s.threads[a.t := WithJoin(s.threads[a.t], j1)]
  {
  }

  lemma JoinedRecordRetained(s: State, j: Join)
    requires RecordsKnown(s) && !j.Ended? && JoinOk(s, j)
    ensures j.record in s.retained
  {
    assert j.record in Elements(s.shell.owned);
  }

  lemma AdvanceKeepsDead(s: State, a: Action)
    requires Enabled(s, a) && a.Advance? && JoinOk(s, s.threads[a.t].join) && SomeDead(s)
    requires Advanced(s, AdvanceJoin(s, s.threads[a.t].join, a.answer).0, s.threads[a.t].join.record,
                      AdvanceJoin(s, s.threads[a.t].join, a.answer).1)
    ensures SomeDead(Step(s, a))
  {
    var s1 := AdvanceJoin(s, s.threads[a.t].join, a.answer).0;
    DeadKept(s, s1, s.threads[a.t].join, a.answer);
    AdvanceMoves(s, a);
    var r :| Dead(s1, r);
    RecordsStay(s1, Step(s, a), r);
  }

  lemma AdvanceShape(s: State, a: Action, th: Thread)
    requires RecordsKnown(s) && HistoriesOk(s) && Enabled(s, a) && a.Advance? && th == s.threads[a.t]
    ensures var s' := Step(s, a);
            var j1 := AdvanceJoin(s, th.join, a.answer).1;
            && ThreadOk(s, th)
            && s'.threads == s.threads[a.t := WithJoin(th, j1)]
            && Advanced(s, s', th.join.record, j1)
            && (SomeDead(s) ==> SomeDead(s'))
            && s'.waits.Keys <= s'.retained && s'.terminal.Keys <= s'.retained
  {
    var j, s' := th.join, Step(s, a);
    var (s1, j1) := AdvanceJoin(s, j, a.answer);
    assert ThreadOk(s, th) && JoinOk(s, j) by { assert a.t in s.threads; }
    JoinAdvances(s, j, a.answer);
    AdvanceMoves(s, a);
    assert Advanced(s, s', j.record, j1) by { AdvancedThenMoved(s, s1, s', j.record, j1); }
    assert SomeDead(s) ==> SomeDead(s') by {
      if SomeDead(s) {
        AdvanceKeepsDead(s, a);
      }
    }
    assert s'.waits.Keys <= s'.retained && s'.terminal.Keys <= s'.retained by {
      JoinedRecordRetained(s, j);
      AdvanceKeepsKeys(s, j, a.answer);
    }
  }

  lemma RecordsAfterAdvance(s: State, s': State, t: Tid, r: RecordId, x: RecordId)
    requires t in s.threads && t in s'.threads && s'.threads == s.threads[t := s'.threads[t]]
    requires SameElsewhere(s, s', r)
    requires Transit(s.threads[t], x) ==> x == r
    requires x == r ==> Settled(s', r) || Transit(s'.threads[t], r)
    requires Settled(s, x) || InTransit(s, x)
    ensures Settled(s', x) || InTransit(s', x)
  {
    if x != r {
      if Settled(s, x) {
        ElsewhereKept(s, s', r, x);
      } else {
        var u :| u in s.threads && Transit(s.threads[u], x);
        assert u in s'.threads && Transit(s'.threads[u], x);
      }
    }
  }

  lemma AdvanceKeepsHistories(s: State, a: Action)
    requires Inv(s) && Enabled(s, a) && a.Advance?
    ensures HistoriesOk(Step(s, a))
  {
    var th, s' := s.threads[a.t], Step(s, a);
    AdvanceShape(s, a, th);
    var j1 := AdvanceJoin(s, th.join, a.answer).1;
    forall u | u in s'.threads ensures ThreadOk(s', s'.threads[u]) {
      if u == a.t {
        JoinerKept(s, s', th, j1);
      } else {
        OthersSilent(s, a.t, u);
        SilentKept(s, s', th.join.record, s.threads[u]);
      }
    }
    forall x | x in s'.retained ensures Settled(s', x) || InTransit(s', x) {
      RecordsAfterAdvance(s, s', a.t, th.join.record, x);
    }
  }

  // ---- the remaining steps ----

  /** Retaining a record adds it and leaves every other one as it was. */
  lemma RetainedElsewhere(s: State, a: Action, r: RecordId, x: RecordId)
    requires Enabled(s, a) && a.RetainProcess? && r == s.threads[a.t].record && x != r
    ensures Open(s, x) ==> Open(Step(s, a), x)
    ensures Dead(s, x) ==> Dead(Step(s, a), x)
    ensures Gone(s, x) ==> Gone(Step(s, a), x)
    ensures History(Step(s, a), x) == History(s, x) && (x in s.shell.owned ==> x in Step(s, a).shell.owned)
  {
    assert Step(s, a).shell.owned == s.shell.owned + [r];
  }

  lemma RetainKeepsThread(s: State, a: Action, th: Thread)
    requires Enabled(s, a) && a.RetainProcess? && ThreadOk(s, th)
    requires th.RunRecord() != Some(s.threads[a.t].record) && !th.PastDrain()
    ensures ThreadOk(Step(s, a), th)
  {
    if th.RunRecord().Some? {
      RetainedElsewhere(s, a, s.threads[a.t].record, th.RunRecord().value);
    }
  }

  lemma RetainKeepsSettled(s: State, a: Action, x: RecordId)
    requires Enabled(s, a) && a.RetainProcess? && x != s.threads[a.t].record
    requires Settled(s, x) || InTransit(s, x)
    ensures Settled(Step(s, a), x) || InTransit(Step(s, a), x)
  {
    if Settled(s, x) {
      RetainedElsewhere(s, a, s.threads[a.t].record, x);
    } else {
      var u :| u in s.threads && Transit(s.threads[u], x);
      assert u in Step(s, a).threads && Transit(Step(s, a).threads[u], x);
    }
  }

  lemma RetainKeepsHistories(s: State, a: Action)
    requires Inv(s) && Enabled(s, a) && a.RetainProcess?
    ensures HistoriesOk(Step(s, a))
  {
    var s' := Step(s, a);
    var r := s.threads[a.t].record;
    assert s.threads[a.t].RunRecord() == Some(r) && s.shell.active > 0 by { ActiveMember(s, a.t); }
    assert Open(s', r) by { assert s'.shell.owned[|s.shell.owned|] == r; }
    forall u | u in s'.threads ensures ThreadOk(s', s'.threads[u]) {
      if u != a.t {
        RetainKeepsThread(s, a, s.threads[u]);
      }
    }
    forall x | x in s'.retained ensures Settled(s', x) || InTransit(s', x) {
      if x != r {
        RetainKeepsSettled(s, a, x);
      }
    }
  }

  /** The post-drain snapshot is complete and every record in it is at rest. */
  lemma SnapshotSettled(s: State, t: Tid)
    requires Inv(s) && t in s.threads && s.threads[t].Snapshotting?
    ensures Unjoined(s, s.shell.owned)
  {
    forall r | r in s.shell.owned ensures Open(s, r) || Dead(s, r) {
      assert r in Elements(s.shell.owned);
      if !Settled(s, r) {
        var u :| u in s.threads && Transit(s.threads[u], r);
        if s.threads[u].RunJoining? {
          ActiveMember(s, u);
        }
        assert false;
      }
    }
  }

  /** What waitOwned hands back to its caller is what the caller then relies on. */
  lemma LeaveJoinOk(s: State, th: Thread, contextEnded: bool)
    requires ThreadOk(s, th) && th.JoinOf().Some? && th.join.Ended?
    ensures ThreadOk(s, AfterWaitOwned(th, contextEnded))
  {
    if th.CleanupJoining? && th.join.result.Failed? && IsTerminal(th.join.result.error) {
      assert Dead(s, th.join.record);
    }
    if th.CleanupJoining? && !contextEnded && th.join.result == Joined && !th.failed {
      assert forall r :: r in s.shell.owned ==> r in Elements(s.shell.owned);
    }
  }

  lemma NextRecordOk(s: State, th: Thread)
    requires th.Looping? && ThreadOk(s, th)
    ensures th.rest == [] ==> ThreadOk(s, Returning(!th.failed)) && (!th.failed <==> s.shell.owned == [])
    ensures th.rest != [] ==> ThreadOk(s, CleanupJoining(Checking(th.rest[0]), th.rest[1..], th.failed))
  {
    if th.rest == [] {
      assert Elements(th.rest) == {};
      assert s.shell.owned != [] ==> s.shell.owned[0] in Elements(s.shell.owned);
    } else {
      assert th.rest == [th.rest[0]] + th.rest[1..];
      assert Elements(th.rest) == Elements(th.rest[1..]) + {th.rest[0]};
    }
  }

  /** Every step outside a join and a retain leaves all records alone. */
  lemma LocalStepShape(s: State, a: Action)
    requires Enabled(s, a) && !a.Advance? && !a.RetainProcess?
    ensures var s' := Step(s, a);
            && SameRecords(s, s')
            && a.t in s'.threads && s'.threads == s.threads[a.t := s'.threads[a.t]]
            && (a.t in s.threads ==> forall r :: !Transit(s.threads[a.t], r))
  {
  }

  /** Steps that take their thread somewhere where it relies on nothing new. */
  lemma PlainStepOk(s: State, a: Action)
    requires Enabled(s, a) && (a.t in s.threads ==> ThreadOk(s, s.threads[a.t]))
    requires !a.Advance? && !a.RetainProcess? && !a.TakeSnapshot? && !a.LeaveJoin? && !a.NextRecord?
    ensures ThreadOk(s, Step(s, a).threads[a.t])
  {
  }

  /** Wherever a record-neutral step takes its thread, what that thread then relies on holds. */
  lemma LocalStepOk(s: State, a: Action)
    requires Inv(s) && Enabled(s, a) && !a.Advance? && !a.RetainProcess?
    ensures ThreadOk(s, Step(s, a).threads[a.t])
  {
    assert a.t in s.threads ==> ThreadOk(s, s.threads[a.t]);
    if a.TakeSnapshot? {
      SnapshotSettled(s, a.t);
    } else if a.LeaveJoin? {
      LeaveJoinOk(s, s.threads[a.t], a.contextEnded);
    } else if a.NextRecord? {
      NextRecordOk(s, s.threads[a.t]);
    } else {
      PlainStepOk(s, a);
    }
  }

  lemma StepKeepsHistories(s: State, a: Action)
    requires Inv(s) && Enabled(s, a)
    ensures HistoriesOk(Step(s, a))
  {
    if a.Advance? {
      AdvanceKeepsHistories(s, a);
    } else if a.RetainProcess? {
      RetainKeepsHistories(s, a);
    } else {
      var s' := Step(s, a);
      assert ThreadOk(s, s'.threads[a.t]) by { LocalStepOk(s, a); }
      LocalStepShape(s, a);
      MoveKeepsHistories(s, s', a.t);
    }
  }

  lemma StepKeepsInv(s: State, a: Action)
    requires Inv(s) && Enabled(s, a)
    ensures Inv(Step(s, a))
  {
    StepCounts(s, a);
    StepLatches(s, a);
    StepStaysWithinBudget(s, a);
    StepHoldsToken(s, a);
    StepClosesDoor(s, a);
    StepHoldsDrain(s, a);
    StepKnowsRecords(s, a);
    StepKeepsHistories(s, a);
  }

  lemma InitialInv()
    ensures Inv(INITIAL)
  {
    assert Actives(INITIAL.threads) == {} && Reservers(INITIAL.threads) == {};
  }

  lemma {:induction false} RunKeepsInv(s: State, run: seq<Action>)
    requires Inv(s) && IsRun(s, run)
    ensures Inv(After(s, run))
    decreases |run|
  {
    if run != [] {
      StepKeepsInv(s, run[0]);
      RunKeepsInv(Step(s, run[0]), run[1..]);
    }
  }
}
