/** From captured streams and a run's outcome to the delivered shell result (shell.go). */
module ShellOutput {
  import opened Common
  import opened Captures
  import opened Encodings
  import opened Outcomes
  import opened Ownership

  datatype ShellContent = ShellContent(
    ok: bool, exitCode: int, stdout: bytes, stderr: bytes, encoding: Encoding,
    stdoutBytes: int, stderrBytes: int, truncated: bool, timedOut: bool, cleanupCompleted: bool)

  function ExitCode(outcome: Outcome): int {
    if outcome.result.None? then -1
    else match outcome.result.value
      case Exited(code) => code
      case Signaled => -1
      case Unknown => -1
  }

  /** The exit code reported for a run is n exactly when the run observed status n, or it is -1 and the run observed no status. */
  lemma ExitCodeByPath(path: Path, join: WaitResult, n: int)
    ensures ExitCode(RunProcess(path, join)) == n <==>
              SeenBy(path) == Some(Observed(Exited(n)))
              || (n == -1 && forall status :: SeenBy(path) != Some(Observed(Exited(status))))
  {
    match SeenBy(path)
    case None =>
    case Some(Unobservable) =>
    case Some(Observed(exit)) =>
      assert RunProcess(path, join).result == Some(exit);
      if exit.Exited? {
        assert SeenBy(path) == Some(Observed(Exited(exit.code)));
      }
  }

  /** The content carries these two byte strings: one decoding of each field gives them back, and the text is valid UTF-8. */
  ghost predicate Carries(content: ShellContent, out: bytes, err: bytes) {
    && Decoded(content.encoding, content.stdout) == Some(out) && Decoded(content.encoding, content.stderr) == Some(err)
    && ValidUtf8(content.stdout) && ValidUtf8(content.stderr)
  }

  method CapturedShellContent(stdout: BoundedCapture, stderr: BoundedCapture, outcome: Outcome) returns (content: ShellContent)
    requires stdout.budget == stderr.budget
    ensures Carries(content, stdout.content, stderr.content)
    ensures content.encoding == Utf8 <==> ValidUtf8(stdout.content) && ValidUtf8(stderr.content)
    ensures content.encoding == Utf8 ==> content.stdout == stdout.content && content.stderr == stderr.content
    ensures content.encoding == Base64Text ==> content.stdout == Base64(stdout.content) && content.stderr == Base64(stderr.content)
    ensures content.ok == CapturedOk(outcome) && content.cleanupCompleted == CleanupCompleted(outcome)
    ensures content.exitCode == ExitCode(outcome) && content.timedOut == outcome.timedOut
    ensures content.stdoutBytes == stdout.observed && content.stderrBytes == stderr.observed
    ensures content.truncated == stdout.budget.truncated
  {
    var out, outSeen, outCut := stdout.TakeSnapshot();
    var err, errSeen, errCut := stderr.TakeSnapshot();
    content := ShellContent(CapturedOk(outcome), ExitCode(outcome), out, err, Utf8,
                            outSeen, errSeen, outCut || errCut, outcome.timedOut, CleanupCompleted(outcome));
    if !ValidUtf8(out) || !ValidUtf8(err) {
      content := content.(encoding := Base64Text);
      content := content.(stdout := Base64(out));
      content := content.(stderr := Base64(err));
    }
    CarriedDecodes(content.encoding, out);
    CarriedDecodes(content.encoding, err);
  }

  function PayloadSize(envelope: nat, content: ShellContent): nat {
    envelope + (if content.encoding == Base64Text then 1 else 0) + JsonSize(content.stdout) + JsonSize(content.stderr)
  }

  predicate Fits(envelope: nat, content: ShellContent) {
    PayloadSize(envelope, content) <= MAXIMUM_PAYLOAD
  }

  /** encodeShellResult: one attempt, then a base64 attempt unless the text is base64 already. */
  method EncodeShellResult(envelope: nat, content: ShellContent) returns (sent: Option<ShellContent>)
    ensures Fits(envelope, content) ==> sent == Some(content)
    ensures !Fits(envelope, content) && content.encoding == Base64Text ==> sent == None
    ensures !Fits(envelope, content) && content.encoding == Utf8 ==>
              var again := content.(encoding := Base64Text, stdout := Base64(content.stdout), stderr := Base64(content.stderr));
              sent == if Fits(envelope, again) then Some(again) else None
  {
    if Fits(envelope, content) {
      return Some(content);
    }
    if content.encoding == Utf8 {
      var again := content.(encoding := Base64Text);
      again := again.(stdout := Base64(again.stdout));
      again := again.(stderr := Base64(again.stderr));
      if Fits(envelope, again) {
        return Some(again);
      }
    }
    sent := None;
  }

  /**
   Any writes to the two streams, then capture, encoding and delivery. What is
   delivered decodes in one step to each stream's share of the first `maximum` bytes
   of the merged output, is plain text exactly if that is possible and fits, and an
   envelope within its room always lets it be delivered.
   */
  method ReportOutcome(chunks: seq<Chunk>, maximum: nat, outcome: Outcome, envelope: nat) returns (sent: Option<ShellContent>)
    requires 1 <= maximum <= MAXIMUM_BYTES && Representable(chunks)
    ensures var out, err := Share(Merged(chunks), Stdout, maximum), Share(Merged(chunks), Stderr, maximum);
            sent.Some? ==>
              && Carries(sent.value, out, err)
              && (sent.value.truncated <==> |Merged(chunks)| > maximum)
              && sent.value.ok == CapturedOk(outcome) && sent.value.exitCode == ExitCode(outcome)
              && sent.value.timedOut == outcome.timedOut && sent.value.cleanupCompleted == CleanupCompleted(outcome)
              && sent.value.stdoutBytes == Seen(Merged(chunks), Stdout) && sent.value.stderrBytes == Seen(Merged(chunks), Stderr)
              && (sent.value.encoding == Utf8 <==>
                    ValidUtf8(out) && ValidUtf8(err) && envelope + JsonSize(out) + JsonSize(err) <= MAXIMUM_PAYLOAD)
    ensures envelope + 1 <= ENVELOPE_ROOM ==> sent.Some?
  {
    var stdout, stderr := CaptureAll(chunks, maximum);
    var content := CapturedShellContent(stdout, stderr, outcome);
    sent := EncodeShellResult(envelope, content);
    ghost var out, err := stdout.content, stderr.content;
    BudgetIsConserved(chunks, maximum);
    FallbackFits(|out|, |err|);
    Base64Spelling(out);
    Base64Spelling(err);
    Base64RoundTrip(out);
    Base64RoundTrip(err);
  }

  /** What a shell call gives back: a result for the model, or an error for the host. */
  datatype Reply =
    | Delivered(content: ShellContent, problem: Option<Problem>)
    | HostError(state: ExecutionState, preserveContext: bool)

  /**
   End to end, told from what happened on the run's path: which runs are delivered,
   with which flags and which exit code, and what their streams decode to.
   */
  method ReportRun(chunks: seq<Chunk>, maximum: nat, path: Path, join: WaitResult, envelope: nat) returns (reply: Reply)
    requires 1 <= maximum <= MAXIMUM_BYTES && Representable(chunks) && Possible(path)
    ensures reply.Delivered? ==>
              && Visible(Classify(RunProcess(path, join))) && (Starts(path) ==> join == Joined)
              && Carries(reply.content, Share(Merged(chunks), Stdout, maximum), Share(Merged(chunks), Stderr, maximum))
              && (reply.content.truncated <==> |Merged(chunks)| > maximum)
              && reply.content.stdoutBytes == Seen(Merged(chunks), Stdout)
              && reply.content.stderrBytes == Seen(Merged(chunks), Stderr)
    ensures reply.Delivered? ==>
              && (reply.content.ok <==> path == RanToEnd(Observed(Exited(0))) && join == Joined)
              && (reply.content.ok <==> reply.problem == None)
              && (reply.content.timedOut <==> CommandDeadline(path))
              && (reply.content.timedOut <==> reply.problem == Some(CommandTimedOut))
              && (reply.content.cleanupCompleted <==> Starts(path) && join == Joined)
              && (forall status :: reply.content.exitCode == status <==>
                    SeenBy(path) == Some(Observed(Exited(status)))
                    || (status == -1 && forall other :: SeenBy(path) != Some(Observed(Exited(other)))))
    ensures reply.HostError? ==> reply.preserveContext == CallerInterrupted(path)
    ensures envelope + 1 <= ENVELOPE_ROOM ==> (reply.Delivered? <==> Visible(Classify(RunProcess(path, join))))
    ensures envelope + 1 <= ENVELOPE_ROOM && reply.HostError? ==> (reply.state == Uncertain <==> Starts(path))
  {
    var outcome := RunProcess(path, join);
    RunClassification(path, join);
    VerdictByPath(path, join);
    ErrorByPath(path, join);
    VisibleMeansJoinedOrNothing(path, join);
    forall status { ExitCodeByPath(path, join, status); }
    var sent := ReportOutcome(chunks, maximum, outcome, envelope);
    var verdict := Classify(outcome);
    if verdict.Error? {
      return HostError(verdict.state, verdict.preserveContext);
    }
    if sent.None? {
      return HostError(Uncertain, false);
    }
    reply := Delivered(sent.value, if verdict.Reported? then Some(verdict.problem) else None);
  }

  lemma VisibleMeansJoinedOrNothing(path: Path, join: WaitResult)
    requires Possible(path)
    ensures Visible(Classify(RunProcess(path, join))) ==>
              (Starts(path) ==> join == Joined) && (CleanupCompleted(RunProcess(path, join)) <==> Starts(path))
  {
    if Visible(Classify(RunProcess(path, join))) {
      VisibleMeansJoined(path, join);
    }
  }
}
