/**
 The state guarded by ownershipMu in the shell tool (process.go), the effect of
 each lock region on it, and the mutable shell tool whose methods implement
 those lock regions.

 `Shell<R>` is generic in what identifies a record: the class below instantiates
 it with heap objects, the interleaving model with record numbers, and both use
 the same lock-region functions.
 */
module Ownership {
  import opened Common

  const MAXIMUM_OWNED_SHELLS := 128

  /** The answer of an error's optional Retryable method. */
  datatype RetryAnswer = Yes | No | Panics

  datatype Failure =
    | Unclassified(tag: nat)
    | Classified(tag: nat, retryable: RetryAnswer)

  /** A failed join is final when the error classifies itself and does not answer "retryable". */
  predicate IsTerminal(error: Failure) {
    error.Classified? && error.retryable != Yes
  }

  /** What a record may cache. */
  type TerminalFailure = error: Failure | IsTerminal(error) witness Classified(0, No)

  datatype WaitResult = Joined | Failed(error: Failure)

  predicate IsRetryable(result: WaitResult) {
    result.Failed? && !IsTerminal(result.error)
  }

  datatype Shell<R> = Shell(
    closing: bool,
    active: int,
    reservations: int,
    owned: seq<R>,
    once: bool,     // drainedOnce has fired
    closes: nat)    // how often close(drained) ran

  datatype Admission = Admitted | ShellClosing | ProcessLimit

  function Decide<R>(s: Shell<R>): Admission {
    if s.closing then ShellClosing
    else if |s.owned| + s.reservations >= MAXIMUM_OWNED_SHELLS then ProcessLimit
    else Admitted
  }

  function Begin<R>(s: Shell<R>): Shell<R> {
    if Decide(s) != Admitted then s
    else s.(active := s.active + 1, reservations := s.reservations + 1)
  }

  function DropReservation<R>(s: Shell<R>, reserved: bool): Shell<R> {
    if reserved then s.(reservations := s.reservations - 1) else s
  }

  function Retain<R>(s: Shell<R>, reserved: bool, record: R): Shell<R> {
    var s1 := DropReservation(s, reserved);
    s1.(owned := s1.owned + [record])
  }

  function CloseDrained<R>(s: Shell<R>): Shell<R> {
    if s.once then s else s.(once := true, closes := s.closes + 1)
  }

  function Finish<R>(s: Shell<R>, reserved: bool): Shell<R> {
    var s1 := DropReservation(s, reserved);
    var s2 := s1.(active := s1.active - 1);
    if s2.closing && s2.active == 0 then CloseDrained(s2) else s2
  }

  function Release<R(==)>(s: Shell<R>, record: R): Shell<R> {
    s.(owned := Without(s.owned, record))
  }

  function CloseAdmission<R>(s: Shell<R>): Shell<R> {
    var s1 := s.(closing := true);
    if s1.active == 0 then CloseDrained(s1) else s1
  }

  // ---- the functions above do not depend on what identifies a record ----

  function Renamed<R, Q>(s: Shell<R>, f: R -> Q): Shell<Q> {
    Shell(s.closing, s.active, s.reservations, Mapped(s.owned, f), s.once, s.closes)
  }

  function Mapped<R, Q>(q: seq<R>, f: R -> Q): (r: seq<Q>)
    ensures |r| == |q|
    ensures forall i :: 0 <= i < |q| ==> r[i] == f(q[i])
  {
    seq(|q|, i requires 0 <= i < |q| => f(q[i]))
  }

  lemma {:induction false} WithoutMapped<R, Q>(q: seq<R>, record: R, f: R -> Q)
    requires forall i :: 0 <= i < |q| ==> (f(q[i]) == f(record) <==> q[i] == record)
    ensures Without(Mapped(q, f), f(record)) == Mapped(Without(q, record), f)
  {
    if q != [] {
      WithoutMapped(q[1..], record, f);
      assert Mapped(q, f)[1..] == Mapped(q[1..], f);
    }
  }

  /**
   Numbering heap records one to one turns every lock region of the class below
   into the lock region of the same name on record numbers.
   */
  lemma LockRegionsCommute<R, Q>(s: Shell<R>, reserved: bool, record: R, f: R -> Q)
    requires forall i :: 0 <= i < |s.owned| ==> (f(s.owned[i]) == f(record) <==> s.owned[i] == record)
    ensures Decide(Renamed(s, f)) == Decide(s)
    ensures Begin(Renamed(s, f)) == Renamed(Begin(s), f)
    ensures Retain(Renamed(s, f), reserved, f(record)) == Renamed(Retain(s, reserved, record), f)
    ensures Finish(Renamed(s, f), reserved) == Renamed(Finish(s, reserved), f)
    ensures Release(Renamed(s, f), f(record)) == Renamed(Release(s, record), f)
    ensures CloseAdmission(Renamed(s, f)) == Renamed(CloseAdmission(s), f)
  {
    WithoutMapped(s.owned, record, f);
    assert Mapped(s.owned + [record], f) == Mapped(s.owned, f) + [f(record)];
  }

  /**
   A join's environment: what each Wait call answers, and whether the context has
   ended when the retry timer is awaited afterwards.
   */
  datatype WaitAnswer = WaitAnswer(result: WaitResult, contextEnded: bool)

  predicate Decisive(answer: WaitAnswer) {
    !IsRetryable(answer.result) || answer.contextEnded
  }

  /** The assumption under which a retry loop ends: some answer is decisive. */
  ghost predicate Resolves(answers: seq<WaitAnswer>) {
    exists k :: 0 <= k < |answers| && Decisive(answers[k])
  }

  /** With the context alive, every one of these answers is a failure without a classification, or one that says "retryable". */
  predicate AskedAgain(answers: seq<WaitAnswer>) {
    forall i :: 0 <= i < |answers| ==>
      !answers[i].contextEnded && answers[i].result.Failed? && UnclassifiedOrRetryable(answers[i].result.error)
  }

  predicate UnclassifiedOrRetryable(error: Failure) {
    match error
    case Unclassified(_) => true
    case Classified(_, answer) => answer == Yes
  }

  /** What waitOwned returns, whether it called Wait, and what it leaves. */
  datatype Waited<R> = Waited(result: WaitResult, called: bool, shell: Shell<R>, terminal: Option<Failure>)

  /** waitOwned when no other goroutine intervenes. */
  function WaitedAlone<R(==)>(s: Shell<R>, record: R, terminal: Option<Failure>, answer: WaitResult): Waited<R> {
    if terminal.Some? then Waited(Failed(terminal.value), false, s, terminal)
    else if answer == Joined then Waited(Joined, true, Release(s, record), None)
    else Waited(answer, true, s, if IsTerminal(answer.error) then Some(answer.error) else None)
  }

  function FirstDecisive(answers: seq<WaitAnswer>): (k: nat)
    requires Resolves(answers)
    ensures k < |answers| && Decisive(answers[k])
    ensures forall i :: 0 <= i < k ==> !Decisive(answers[i])
  {
    if Decisive(answers[0]) then 0
    else
      assert Resolves(answers[1..]) by {
        var k :| 0 <= k < |answers| && Decisive(answers[k]);
        assert answers[1..][k - 1] == answers[k];
      }
      1 + FirstDecisive(answers[1..])
  }

  /** The answer that decides about a record; of one whose failure is cached only the context is asked. */
  function LastAnswer(terminal: Option<Failure>, answers: seq<WaitAnswer>): WaitAnswer
    requires Resolves(answers)
  {
    if terminal.Some? then answers[0] else answers[FirstDecisive(answers)]
  }

  /** A record that cleanup is to join, the failure it caches, and the answer that decides about it. */
  datatype Task<R> = Task(record: R, cached: Option<Failure>, last: WaitAnswer)

  function Performed<R(==)>(s: Shell<R>, task: Task<R>): Waited<R> {
    WaitedAlone(s, task.record, task.cached, task.last.result)
  }

  /** Cleanup's loop over its copy when no other goroutine intervenes: the shell it leaves and whether it reports success. */
  function LoopAlone<R(==)>(s: Shell<R>, tasks: seq<Task<R>>, failed: bool): (Shell<R>, bool)
    decreases |tasks|
  {
    if tasks == [] then (s, !failed)
    else
      var w := Performed(s, tasks[0]);
      if tasks[0].last.contextEnded then (w.shell, false)
      else LoopAlone(w.shell, tasks[1..], failed || w.result.Failed?)
  }

  ghost predicate ContextLives<R>(tasks: seq<Task<R>>) {
    forall i :: 0 <= i < |tasks| ==> !tasks[i].last.contextEnded
  }

  function Records<R>(tasks: seq<Task<R>>): (records: seq<R>)
    ensures |records| == |tasks|
    ensures forall i :: 0 <= i < |tasks| ==> records[i] == tasks[i].record
  {
    seq(|tasks|, i requires 0 <= i < |tasks| => tasks[i].record)
  }

  /** These answers decide about these tasks. */
  ghost predicate DecidedBy<R>(tasks: seq<Task<R>>, answers: seq<seq<WaitAnswer>>) {
    && |tasks| == |answers|
    && forall k :: 0 <= k < |tasks| ==> Resolves(answers[k]) && tasks[k].last == LastAnswer(tasks[k].cached, answers[k])
  }

  /** A record that could not be joined stays where it is, one that could leaves its place. */
  lemma PerformedKeeps<R>(s: Shell<R>, kept: seq<R>, task: Task<R>, rest: seq<R>)
    requires s.owned == kept + [task.record] + rest && Distinct(s.owned)
    ensures var w := Performed(s, task);
            && w.shell.owned == (if w.result == Joined then kept else kept + [task.record]) + rest
            && Distinct(w.shell.owned)
  {
    assert s.owned[|kept|] == task.record;
    WithoutAt(s.owned, task.record, |kept|);
    WithoutDistinct(s.owned, task.record);
    assert s.owned[..|kept|] == kept && s.owned[|kept| + 1..] == rest;
  }

  lemma TasksFromFirst<R>(tasks: seq<Task<R>>)
    requires tasks != []
    ensures Records(tasks) == [tasks[0].record] + Records(tasks[1..])
    ensures ContextLives(tasks) <==> !tasks[0].last.contextEnded && ContextLives(tasks[1..])
  {
    assert forall i :: 1 <= i < |tasks| ==> tasks[i] == tasks[1..][i - 1];
  }

  /**
   Between rounds the shell holds the records that could not be joined so far, then
   those still to come; the loop succeeds exactly if it ends owning none and the
   context was alive after every record.
   */
  lemma {:induction false} LoopSucceedsExactly<R>(s: Shell<R>, kept: seq<R>, tasks: seq<Task<R>>)
    requires s.owned == kept + Records(tasks) && Distinct(s.owned)
    ensures var (s1, ok) := LoopAlone(s, tasks, kept != []);
            ok <==> s1.owned == [] && ContextLives(tasks)
    decreases |tasks|
  {
    if tasks == [] {
      assert kept + Records(tasks) == kept;
    } else {
      var w := Performed(s, tasks[0]);
      var rest := Records(tasks[1..]);
      TasksFromFirst(tasks);
      assert s.owned == kept + [tasks[0].record] + rest;
      PerformedKeeps(s, kept, tasks[0], rest);
      if !tasks[0].last.contextEnded {
        LoopSucceedsExactly(w.shell, if w.result == Joined then kept else kept + [tasks[0].record], tasks[1..]);
      }
    }
  }

  lemma LoopFromSnapshot<R>(s: Shell<R>, tasks: seq<Task<R>>)
    requires s.owned == Records(tasks) && Distinct(s.owned)
    ensures var (s1, ok) := LoopAlone(s, tasks, false);
            ok <==> s1.owned == [] && ContextLives(tasks)
  {
    assert [] + Records(tasks) == Records(tasks);
    LoopSucceedsExactly(s, [], tasks);
  }

  class OwnedProcess {
    const process: nat
    var terminal: Option<TerminalFailure>

    constructor (process: nat)
      ensures this.process == process && terminal == None
    {
      this.process := process;
      terminal := None;
    }
  }

  class ExecutionLease {
    var reserved: bool

    constructor ()
      ensures reserved
    {
      reserved := true;
    }
  }

  class ShellTool {
    var closing: bool
    var active: int
    var reservations: int
    var slots: array<OwnedProcess?>   // the backing array of the owned slice
    var count: nat                    // the length of the owned slice
    var once: bool
    var closes: nat

    ghost predicate Valid()
      reads this, slots
    {
      && count <= slots.Length
      && (forall i :: 0 <= i < count ==> slots[i] != null)
    }

    ghost function Owned(): seq<OwnedProcess?>
      reads this, slots
      requires count <= slots.Length
    {
      slots[..count]
    }

    ghost function View(): Shell<OwnedProcess?>
      reads this, slots
      requires Valid()
    {
      Shell(closing, active, reservations, Owned(), once, closes)
    }

    constructor ()
      ensures Valid() && fresh(slots)
      ensures View() == Shell(false, 0, 0, [], false, 0)
    {
      closing, active, reservations, count, once, closes := false, 0, 0, 0, false, 0;
      slots := new OwnedProcess?[0];
    }

    method BeginExecution() returns (admission: Admission, lease: ExecutionLease?)
      requires Valid()
      modifies `active, `reservations
      ensures Valid() && slots == old(slots)
      ensures admission == Decide(old(View())) && View() == Begin(old(View()))
      ensures admission == Admitted <==> lease != null
      ensures lease != null ==> fresh(lease) && lease.reserved
    {
      lease := null;
      if closing {
        return ShellClosing, null;
      }
      if count + reservations >= MAXIMUM_OWNED_SHELLS {
        return ProcessLimit, null;
      }
      active := active + 1;
      reservations := reservations + 1;
      lease := new ExecutionLease();
      admission := Admitted;
    }

    /** Go's append: in place while the backing array has room, else into a larger one. */
    method Append(record: OwnedProcess)
      requires Valid()
      modifies `slots, `count, slots
      ensures Valid() && (slots == old(slots) || fresh(slots))
      ensures Owned() == old(Owned()) + [record]
    {
      if count == slots.Length {
        var larger := new OwnedProcess?[2 * count + 1](_ => null);
        var i := 0;
        while i < count
          invariant 0 <= i <= count && Valid() && slots == old(slots) && count == old(count)
          invariant Owned() == old(Owned())
          invariant forall k :: 0 <= k < i ==> larger[k] == slots[k]
          modifies larger
        {
          larger[i] := slots[i];
          i := i + 1;
        }
        slots := larger;
      }
      slots[count] := record;
      count := count + 1;
    }

    method RetainProcess(lease: ExecutionLease, process: nat) returns (record: OwnedProcess)
      requires Valid()
      modifies `reservations, `slots, `count, slots, lease
      ensures Valid() && (slots == old(slots) || fresh(slots))
      ensures fresh(record) && record.process == process && record.terminal == None
      ensures View() == Retain(old(View()), old(lease.reserved), record)
      ensures !lease.reserved
    {
      record := new OwnedProcess(process);
      if lease.reserved {
        reservations := reservations - 1;
        lease.reserved := false;
      }
      Append(record);
    }

    method FinishExecution(lease: ExecutionLease)
      requires Valid()
      modifies `active, `reservations, `once, `closes, lease
      ensures Valid() && slots == old(slots)
      ensures View() == Finish(old(View()), old(lease.reserved))
      ensures !lease.reserved
    {
      if lease.reserved {
        reservations := reservations - 1;
        lease.reserved := false;
      }
      active := active - 1;
      if closing && active == 0 {
        if !once {
          once := true;
          closes := closes + 1;
        }
      }
    }

    /** Closes the gap at `index` by shifting everything behind it one place forward, in place. */
    method ShiftDown(index: nat)
      requires Valid() && index < count
      modifies `count, slots
      ensures Valid() && count == old(count) - 1 && slots[count] == null
      ensures Owned() == old(Owned())[..index] + old(Owned())[index + 1..]
    {
      ghost var before := Owned();
      var k := index;
      while k < count - 1
        invariant index <= k <= count - 1 && count == old(count)
        invariant forall i :: 0 <= i < index ==> slots[i] == before[i]
        invariant forall i :: index <= i < k ==> slots[i] == before[i + 1]
        invariant forall i :: k < i < count ==> slots[i] == before[i]
      {
        slots[k] := slots[k + 1];
        k := k + 1;
      }
      slots[count - 1] := null;
      count := count - 1;
    }

    method ReleaseOwned(record: OwnedProcess?)
      requires Valid()
      modifies `count, slots
      ensures Valid()
      ensures View() == if record == null then old(View()) else Release(old(View()), record)
      ensures record != null && record in old(Owned()) ==> count < slots.Length && slots[count] == null
    {
      if record == null {
        return;
      }
      var index := 0;
      while index < count
        invariant Valid() && View() == old(View())
        invariant 0 <= index <= count
        invariant forall i :: 0 <= i < index ==> slots[i] != record
      {
        if slots[index] == record {
          WithoutAt(Owned(), record, index);
          ShiftDown(index);
          return;
        }
        index := index + 1;
      }
      assert record !in Owned();
      WithoutAbsent(Owned(), record);
    }

    /** Cleanup's private copy of the owned slice: later in-place shifts cannot reach it. */
    method Snapshot() returns (copy: array<OwnedProcess?>)
      requires Valid()
      ensures fresh(copy) && copy[..] == slots[..count]
    {
      copy := new OwnedProcess?[count](_ => null);
      var i := 0;
      while i < count
        invariant 0 <= i <= count
        invariant copy[..i] == slots[..i]
      {
        copy[i] := slots[i];
        i := i + 1;
      }
    }

    method BeginCleanup()
      requires Valid()
      modifies `closing, `once, `closes
      ensures Valid() && View() == CloseAdmission(old(View()))
    {
      closing := true;
      if active == 0 {
        if !once {
          once := true;
          closes := closes + 1;
        }
      }
    }

    /** waitOwned as one piece; `answer` is what Wait would return. */
    method WaitOwned(record: OwnedProcess, answer: WaitResult) returns (result: WaitResult, called: bool)
      requires Valid()
      modifies `count, slots, record`terminal
      ensures Valid() && slots == old(slots)
      ensures called == old(record.terminal.None?)
      ensures result == if called then answer else Failed(old(record.terminal).value)
      ensures View() == if called && answer == Joined then Release(old(View()), record) else old(View())
      ensures record.terminal ==
              if called && answer.Failed? && IsTerminal(answer.error) then Some(answer.error) else old(record.terminal)
      ensures Waited(result, called, View(), record.terminal)
              == WaitedAlone(old(View()), record, old(record.terminal), answer)
      // told by what the error is: only an error that says "not retryable", or panics when asked, is kept
      ensures called ==> (record.terminal.Some? <==> exists tag ::
                            answer == Failed(Classified(tag, No)) || answer == Failed(Classified(tag, Panics)))
      ensures called && record.terminal.Some? ==> answer == Failed(record.terminal.value)
      ensures forall tag :: called && (answer == Failed(Unclassified(tag)) || answer == Failed(Classified(tag, Yes))) ==>
                record.terminal == None && View() == old(View()) && result == answer
    {
      var terminal := record.terminal;
      if terminal.Some? {
        return Failed(terminal.value), false;
      }
      called := true;
      result := answer;
      if answer == Joined {
        ReleaseOwned(record);
        return;
      }
      if IsTerminal(answer.error) {
        if record.terminal.None? {
          record.terminal := Some(answer.error);
        }
        return Failed(record.terminal.value), true;
      }
    }

    /**
     Cleanup's retry loop. It ends because some Wait answer is decisive, which is
     the stated assumption on the environment; it calls Wait up to and including
     the first decisive answer and never again, and not at all once a terminal
     failure is cached.
     */
    method RetryWaitOwned(record: OwnedProcess, answers: seq<WaitAnswer>) returns (result: WaitResult, calls: nat)
      requires Valid()
      requires Resolves(answers)
      modifies `count, slots, record`terminal
      ensures Valid() && slots == old(slots)
      ensures old(record.terminal).Some? ==>
                calls == 0 && result == Failed(old(record.terminal).value)
                && View() == old(View()) && record.terminal == old(record.terminal)
      ensures old(record.terminal).None? ==>
                && 1 <= calls <= |answers|
                && Decisive(answers[calls - 1])
                && (forall i :: 0 <= i < calls - 1 ==> !Decisive(answers[i]))
                && result == answers[calls - 1].result
                && View() == (if result == Joined then Release(old(View()), record) else old(View()))
                && record.terminal == (if result.Failed? && IsTerminal(result.error) then Some(result.error) else None)
      ensures forall n: nat :: old(record.terminal).None? && n < |answers| && answers[n].result == Joined && AskedAgain(answers[..n]) ==>
                calls == n + 1 && result == Joined && View() == Release(old(View()), record)
    {
      calls := 0;
      while true
        invariant Valid() && slots == old(slots) && View() == old(View())
        invariant record.terminal == old(record.terminal)
        invariant calls <= |answers|
        invariant forall i :: 0 <= i < calls ==> !Decisive(answers[i])
        invariant record.terminal.Some? ==> calls == 0
        decreases |answers| - calls
      {
        var called;
        assert exists i :: calls <= i < |answers| && Decisive(answers[i]);
        result, called := WaitOwned(record, answers[calls].result);
        if called {
          calls := calls + 1;
        }
        if result == Joined || IsTerminal(result.error) {
          return;
        }
        if answers[calls - 1].contextEnded {
          return;
        }
      }
    }

    /** From the i-th on, the records cache what the tasks say. */
    ghost predicate CachedFrom(tasks: seq<Task<OwnedProcess?>>, records: seq<OwnedProcess?>, i: nat)
      reads records
    {
      |tasks| == |records| && forall k :: i <= k < |tasks| ==> records[k] != null && records[k].terminal == tasks[k].cached
    }

    /** One round of cleanup's loop: the i-th task is done, those behind it still await their records. */
    method JoinRound(record: OwnedProcess, answers: seq<WaitAnswer>,
                     ghost tasks: seq<Task<OwnedProcess?>>, ghost records: seq<OwnedProcess?>, ghost i: nat)
      returns (joined: bool, ended: bool)
      requires Valid() && Distinct(records) && CachedFrom(tasks, records, i)
      requires i < |tasks| && records[i] == record && tasks[i].record == record
      requires Resolves(answers) && tasks[i].last == LastAnswer(tasks[i].cached, answers)
      modifies `count, slots, record`terminal
      ensures Valid() && slots == old(slots) && CachedFrom(tasks, records, i + 1)
      ensures var w := Performed(old(View()), tasks[i]);
              View() == w.shell && (joined <==> w.result == Joined) && ended == tasks[i].last.contextEnded
    {
      var result, calls := RetryWaitOwned(record, answers);
      joined := result == Joined;
      ended := answers[if calls == 0 then 0 else calls - 1].contextEnded;
    }

    /** Cleanup's loop over its private copy. */
    method JoinCopy(copy: array<OwnedProcess?>, answers: seq<seq<WaitAnswer>>, ghost tasks: seq<Task<OwnedProcess?>>) returns (ok: bool)
      requires Valid() && copy != slots && Distinct(copy[..])
      requires DecidedBy(tasks, answers) && Records(tasks) == copy[..] && CachedFrom(tasks, copy[..], 0)
      modifies `count, slots, copy[..]
      ensures Valid() && slots == old(slots)
      ensures (View(), ok) == LoopAlone(old(View()), tasks, false)
    {
      ghost var all := copy[..];
      ok := true;
      var i := 0;
      while i < copy.Length
        invariant Valid() && slots == old(slots)
        invariant copy[..] == all && 0 <= i <= copy.Length
        invariant CachedFrom(tasks, all, i)
        invariant LoopAlone(View(), tasks[i..], !ok) == LoopAlone(old(View()), tasks, false)
      {
        assert copy[i] == all[i] && tasks[i..][1..] == tasks[i + 1..];
        var joined, ended := JoinRound(copy[i], answers[i], tasks, all, i);
        ok := ok && joined;
        i := i + 1;
        if ended {
          return false;
        }
      }
    }

    /**
     Cleanup once executions have drained and nobody else intervenes: it joins every
     record of its private copy while releases shift the live slice, and looks at its
     context after each.
     */
    method JoinSnapshot(answers: seq<seq<WaitAnswer>>, ghost tasks: seq<Task<OwnedProcess?>>) returns (ok: bool)
      requires Valid() && Distinct(Owned())
      requires DecidedBy(tasks, answers) && Records(tasks) == Owned() && CachedFrom(tasks, Owned(), 0)
      modifies `count, slots, Owned()
      ensures Valid() && slots == old(slots)
      ensures (View(), ok) == LoopAlone(old(View()), tasks, false)
      ensures ok <==> Owned() == [] && ContextLives(tasks)
    {
      LoopFromSnapshot(View(), tasks);
      var copy := Snapshot();
      assert copy[..] == Owned();
      ok := JoinCopy(copy, answers, tasks);
    }
  }
}
