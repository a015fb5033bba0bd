/** What every step of the shell protocol keeps. */
module ShellInvariant {
  import opened Common
  import opened Ownership
  import opened Outcomes
  import opened ShellProtocol

  // ---- counters ----

  ghost function Actives(threads: map<Tid, Thread>): set<Tid> {
    set t | t in threads && threads[t].Active()
  }

  ghost function Reservers(threads: map<Tid, Thread>): set<Tid> {
    set t | t in threads && threads[t].Reserving()
  }

  /** active and reservations count exactly the unfinished leases and those still reserved. */
  ghost predicate Counted(s: State) {
    && s.shell.active == |Actives(s.threads)|
    && s.shell.reservations == |Reservers(s.threads)|
  }

  /** drained is closed exactly when closing holds and active is 0, and never twice. */
  ghost predicate Latched(s: State) {
    && s.shell.closes == (if s.shell.closing && s.shell.active == 0 then 1 else 0)
    && (s.shell.once <==> s.shell.closes == 1)
  }

  ghost predicate WithinBudget(s: State) {
    |s.shell.owned| + s.shell.reservations <= MAXIMUM_OWNED_SHELLS
  }

  lemma SizeOfUpdate(before: set<Tid>, after: set<Tid>, t: Tid)
    requires after == before || after == before + {t} || after == before - {t}
    ensures |after| == |before| - (if t in before then 1 else 0) + (if t in after then 1 else 0)
  {
  }

  lemma ActiveUpdate(threads: map<Tid, Thread>, t: Tid, th: Thread)
    ensures |Actives(threads[t := th])| == |Actives(threads)|
                 - (if t in threads && threads[t].Active() then 1 else 0) + (if th.Active() then 1 else 0)
  {
    var before, after := Actives(threads), Actives(threads[t := th]);
    assert after == if th.Active() then before + {t} else before - {t};
    SizeOfUpdate(before, after, t);
  }

  lemma ReservingUpdate(threads: map<Tid, Thread>, t: Tid, th: Thread)
    ensures |Reservers(threads[t := th])| == |Reservers(threads)|
                 - (if t in threads && threads[t].Reserving() then 1 else 0) + (if th.Reserving() then 1 else 0)
  {
    var before, after := Reservers(threads), Reservers(threads[t := th]);
    assert after == if th.Reserving() then before + {t} else before - {t};
    SizeOfUpdate(before, after, t);
  }

  lemma ActiveMember(s: State, t: Tid)
    requires Counted(s) && t in s.threads && s.threads[t].Active()
    ensures s.shell.active > 0
  {
    assert t in Actives(s.threads);
  }

  /** The counters move exactly as the stepping thread's lease does. */
  lemma CountersFollowThread(s: State, a: Action)
    requires Enabled(s, a)
    ensures var s' := Step(s, a);
            && a.t in s'.threads && s'.threads == s.threads[a.t := s'.threads[a.t]]
            && s'.shell.active == s.shell.active
                 - (if a.t in s.threads && s.threads[a.t].Active() then 1 else 0)
                 + (if s'.threads[a.t].Active() then 1 else 0)
            && s'.shell.reservations == s.shell.reservations
                 - (if a.t in s.threads && s.threads[a.t].Reserving() then 1 else 0)
                 + (if s'.threads[a.t].Reserving() then 1 else 0)
  {
  }

  lemma StepCounts(s: State, a: Action)
    requires Counted(s) && Enabled(s, a)
    ensures Counted(Step(s, a))
  {
    CountersFollowThread(s, a);
    ActiveUpdate(s.threads, a.t, Step(s, a).threads[a.t]);
    ReservingUpdate(s.threads, a.t, Step(s, a).threads[a.t]);
  }

  lemma StepLatches(s: State, a: Action)
    requires Counted(s) && Latched(s) && Enabled(s, a)
    ensures Latched(Step(s, a))
  {
    StepCounts(s, a);
    if a.FinishRun? {
      ActiveMember(s, a.t);
    }
  }

  lemma StepStaysWithinBudget(s: State, a: Action)
    requires WithinBudget(s) && Enabled(s, a)
    requires Distinct(s.shell.owned)
    ensures WithinBudget(Step(s, a))
  {
    if a.Advance? && s.threads[a.t].join.Releasing? {
      WithoutDistinct(s.shell.owned, s.threads[a.t].join.record);
    }
  }

  // ---- the cleanup token and the drain ----

  ghost predicate TokenHeld(s: State) {
    && (forall t :: t in s.threads ==> (s.threads[t].HoldsToken() <==> s.token == Some(t)))
    && (s.token.Some? ==> s.token.value in s.threads)
  }

  /** A cleanup that got past the drain proves that admission is closed and nothing runs. */
  ghost predicate DrainHolds(s: State) {
    forall t :: t in s.threads && s.threads[t].PastDrain() ==> s.shell.closing && s.shell.active == 0
  }

  /** Every cleanup that waits for the token or the drain has closed admission first. */
  ghost predicate DoorClosed(s: State) {
    forall t :: t in s.threads && (s.threads[t].Queued? || s.threads[t].HoldsToken()) ==> s.shell.closing
  }

  lemma StepClosesDoor(s: State, a: Action)
    requires DoorClosed(s) && Enabled(s, a)
    ensures DoorClosed(Step(s, a))
  {
    var s' := Step(s, a);
    forall t | t in s'.threads && (s'.threads[t].Queued? || s'.threads[t].HoldsToken())
      ensures s'.shell.closing
    {
      if t != a.t {
        assert s'.threads[t] == s.threads[t];
      }
    }
  }

  /** A step moves one thread. */
  lemma OneThreadMoves(s: State, a: Action)
    requires Enabled(s, a)
    ensures var s' := Step(s, a); a.t in s'.threads && s'.threads == s.threads[a.t := s'.threads[a.t]]
  {
  }

  lemma TokenFollowsThread(s: State, a: Action)
    requires Enabled(s, a)
    requires a.t in s.threads ==> (s.threads[a.t].HoldsToken() <==> s.token == Some(a.t))
    requires a.t !in s.threads ==> s.token != Some(a.t)
    ensures var s' := Step(s, a);
            && a.t in s'.threads
            && (s'.threads[a.t].HoldsToken() <==> s'.token == Some(a.t))
            && (s'.token == s.token || (s.token == None && s'.token == Some(a.t)) || (s.token == Some(a.t) && s'.token == None))
  {
  }

  lemma StepHoldsToken(s: State, a: Action)
    requires TokenHeld(s) && Enabled(s, a)
    ensures TokenHeld(Step(s, a))
  {
    OneThreadMoves(s, a);
    TokenFollowsThread(s, a);
  }

  /** A thread gets past the drain only through a closed latch. */
  lemma PassingMeansIdle(s: State, a: Action)
    requires Latched(s) && Enabled(s, a) && Step(s, a).threads[a.t].PastDrain()
    requires a.t in s.threads && s.threads[a.t].PastDrain() ==> s.shell.closing && s.shell.active == 0
    ensures s.shell.closing && s.shell.active == 0
  {
  }

  /** Once closed and idle, the shell stays so. */
  lemma IdleStays(s: State, a: Action)
    requires Counted(s) && Enabled(s, a) && s.shell.closing && s.shell.active == 0
    ensures Step(s, a).shell.closing && Step(s, a).shell.active == 0
  {
    if a.FinishRun? {
      ActiveMember(s, a.t);
    }
  }

  lemma StepHoldsDrain(s: State, a: Action)
    requires Counted(s) && Latched(s) && DrainHolds(s) && Enabled(s, a)
    ensures DrainHolds(Step(s, a))
  {
    var s' := Step(s, a);
    OneThreadMoves(s, a);
    forall t | t in s'.threads && s'.threads[t].PastDrain()
      ensures s'.shell.closing && s'.shell.active == 0
    {
      if t == a.t {
        PassingMeansIdle(s, a);
      }
      IdleStays(s, a);
    }
  }

  // ---- who brought in which record ----

  ghost function Pending(threads: map<Tid, Thread>): set<RecordId> {
    set t | t in threads && threads[t].Launched? :: threads[t].record
  }

  /** Each execution has its own record; a started process is retained or about to be. */
  ghost predicate RecordsKnown(s: State) {
    && Distinct(s.shell.owned)
    && Elements(s.shell.owned) <= s.retained <= s.started
    && s.started == s.retained + Pending(s.threads)
    && (forall t :: t in s.threads && s.threads[t].Launched? ==> s.threads[t].record !in s.retained)
    && (forall t :: t in s.threads && !s.threads[t].Launched? && s.threads[t].RunRecord().Some? ==>
          s.threads[t].RunRecord().value in s.retained)
    && (forall t, u :: t in s.threads && u in s.threads && t != u && s.threads[t].RunRecord().Some? ==>
          s.threads[t].RunRecord() != s.threads[u].RunRecord())
  }

  lemma PendingUpdate(s: State, t: Tid, th: Thread)
    requires RecordsKnown(s)
    requires t in s.threads && s.threads[t].Launched? ==> !th.Launched?
    ensures Pending(s.threads[t := th]) ==
            Pending(s.threads)
              - (if t in s.threads && s.threads[t].Launched? then {s.threads[t].record} else {})
              + (if th.Launched? then {th.record} else {})
  {
    var threads, updated := s.threads, s.threads[t := th];
    forall r ensures r in Pending(updated) <==>
        r in Pending(threads)
              - (if t in threads && threads[t].Launched? then {threads[t].record} else {})
              + (if th.Launched? then {th.record} else {})
    {
      if r in Pending(threads) {
        var u :| u in threads && threads[u].Launched? && threads[u].record == r;
        if u != t {
          assert updated[u] == threads[u] && threads[u].RunRecord() == Some(r);
        }
      }
      if r in Pending(updated) {
        var u :| u in updated && updated[u].Launched? && updated[u].record == r;
        if u != t {
          assert threads[u] == updated[u] && threads[u].RunRecord() == Some(r);
        }
      }
      if th.Launched? && r == th.record {
        assert updated[t].record == r;
      }
    }
  }

  /** A step that touches none of the record sets and at most forgets the thread's own record. */
  lemma MoveKnowsRecords(s: State, t: Tid, th: Thread)
    requires RecordsKnown(s)
    requires th.RunRecord().None? || (t in s.threads && th.RunRecord() == s.threads[t].RunRecord())
    requires !th.Launched? && (t in s.threads ==> !s.threads[t].Launched?)
    ensures RecordsKnown(Move(s, t, th))
  {
    PendingUpdate(s, t, th);
    var s' := Move(s, t, th);
    forall u | u in s'.threads
      ensures u != t ==> s'.threads[u] == s.threads[u]
    {
    }
  }

  lemma StartKnowsRecords(s: State, a: Action)
    requires RecordsKnown(s) && Enabled(s, a) && a.StartReturns?
    ensures RecordsKnown(Step(s, a))
  {
    PendingUpdate(s, a.t, Launched(a.record, a.launchFailed));
    var s' := Step(s, a);
    forall u | u in s'.threads
      ensures u != a.t ==> s'.threads[u] == s.threads[u]
      ensures u != a.t && s.threads[u].RunRecord().Some? ==> s.threads[u].RunRecord().value in s.started
    {
      if u != a.t && s.threads[u].Launched? {
        assert s.threads[u].record in Pending(s.threads);
      }
    }
  }

  lemma RetainKnowsRecords(s: State, a: Action)
    requires RecordsKnown(s) && Enabled(s, a) && a.RetainProcess?
    ensures RecordsKnown(Step(s, a))
  {
    var th := s.threads[a.t];
    PendingUpdate(s, a.t, Holding(th.record, th.launchFailed));
    var s' := Step(s, a);
    assert th.RunRecord() == Some(th.record) && th.record in Pending(s.threads);
    assert Elements(s'.shell.owned) == Elements(s.shell.owned) + {th.record};
    forall u | u in s'.threads
      ensures u != a.t ==> s'.threads[u] == s.threads[u]
    {
    }
  }

  /** Every step but a start and a retain leaves the record sets alone, and owned too unless it releases. */
  lemma RecordSetsStay(s: State, a: Action)
    requires Enabled(s, a) && !a.StartReturns? && !a.RetainProcess?
    ensures var s' := Step(s, a);
            && s'.started == s.started && s'.retained == s.retained
            && (s'.shell.owned == s.shell.owned
                || (a.Advance? && s'.shell.owned == Without(s.shell.owned, s.threads[a.t].join.record)))
  {
  }

  lemma RunRecordStays(s: State, a: Action)
    requires Enabled(s, a) && !a.StartReturns? && !a.RetainProcess?
    ensures var s' := Step(s, a);
            && a.t in s'.threads && s'.threads == s.threads[a.t := s'.threads[a.t]]
            && (s'.threads[a.t].RunRecord().None?
                || (a.t in s.threads && s'.threads[a.t].RunRecord() == s.threads[a.t].RunRecord()))
            && !s'.threads[a.t].Launched? && (a.t in s.threads ==> !s.threads[a.t].Launched?)
  {
  }

  lemma StepKnowsRecords(s: State, a: Action)
    requires RecordsKnown(s) && Enabled(s, a)
    ensures RecordsKnown(Step(s, a))
  {
    if a.StartReturns? {
      StartKnowsRecords(s, a);
    } else if a.RetainProcess? {
      RetainKnowsRecords(s, a);
    } else {
      var s' := Step(s, a);
      RecordSetsStay(s, a);
      RunRecordStays(s, a);
      MoveKnowsRecords(s, a.t, s'.threads[a.t]);
      if a.Advance? {
        WithoutDistinct(s.shell.owned, s.threads[a.t].join.record);
      }
    }
  }
}
