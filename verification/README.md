# Verification of the coding tools

This project models the file and shell tools of the repository in Dafny and
proves what they promise: that a shell tool never loses a process, that a
stale-protected replace is all or nothing and serialises concurrent calls, that
output capture keeps exactly its budget, that reads can be reassembled byte for
byte, and that relative paths cannot climb out of the worktree.

`dafny verify dfyconfig.toml` checks the whole project.

## What is modelled

**Shell process ownership** (`Ownership`, `Outcomes`, `ShellProtocol`,
`ShellInvariant`, `ShellHistories`, `ShellTheorems`, `ShellSequential`). `Ownership.ShellTool` is
the mutable tool: the owned slice in its backing array, the counters, the
one-shot drain latch, in-place removal, the retry loop and cleanup's private
copy. Each method is proved against the effect of its lock region.
`ShellProtocol` lets any number of executions and cleanups interleave, one step
per lock region, with `Start` and `Wait` answering as they like between steps;
it uses the same lock-region functions, and `Ownership.LockRegionsCommute`
carries them from heap records to record numbers, and `ShellSequential` shows
that the steps of a join, a retry and cleanup's loop, uninterrupted, are the
class's methods. The theorems are about every
reachable state and every run.

**Stale-protected replace** (`Digests`, `ReplaceCall`, `ReplaceSafety`,
`ReplaceEvents`, `ReplaceSerial`, `ReplaceAnswers`, `ReplaceProtocol`, `ReplaceStaleness`, `ReplaceTools`). Names lead to inodes and
inodes to content, because creation hard-links its temporary. A call is a
machine with one filesystem call per step; `ReplaceTools.ReplaceTool` is the
same call as mutable code with its loops, proved to take the filesystem where
the machine goes. `ReplaceProtocol` interleaves any number of calls with each
other, with cancellation anywhere, and with another writer who may change
anything between two steps. `ReplaceEvents` names what a step can come upon, from
the call's place and the environment's answer alone, and the outcomes and replies
are proved to tell exactly that. The hash is an arbitrary function into 32 bytes:
nothing is assumed about collisions.

**Capture, reading, encoding, delivery** (`Captures`, `Encodings`, `Reads`,
`ShellOutput`), **path rules** (`Paths`) and the **hand-over of a digest from a
read to a replace** (`Handoff`).

## What the proofs found

- The captured `ok` flag and the classifier disagree on one kind of outcome
  record: a wait error, nothing started, status 0 and no other error.
  `runProcess` never builds such a record, so the two agree on everything it does
  build (`Outcomes.OkAgreesExactly`, `Outcomes.RunsCarryNoStrayWaitError`).
- A replace attempt starts to watch its target when it opens it, not when it
  reads it: if another writer swaps the entry between that open and the read,
  the read still sees the old file and the swapped-in one is overwritten. Every
  replace that could go ahead has such a run from the start, with no other step of
  another writer in it (`ReplaceStaleness.WriterBeforeReadIsOverwritten`). From
  the read on, the attempt commits if and only if the opened file has the
  expected digest (`ReplaceSafety.SwapAfterOpenGoesUnnoticed`). So a stale commit
  needs another writer since the attempt's open, and that is what is proved
  (`ReplaceStaleness.StaleCommitNeedsAnotherWriter`).
- A create that reports `temporary_cleaned` as false may leave nothing behind,
  because the deferred removal tries again: wherever a create can succeed it has
  such a run (`ReplaceSerial.CleanedFlagCanBeWrong`). The flag is right if and
  only if the first removal succeeded or the deferred one failed too
  (`ReplaceSerial.CleanedFlagIsRightExactly`).
- The read tool's fallback encodes whatever text it holds, also text that is
  base64 already; nothing in the code guards against it. It is harmless for
  every envelope: text that was base64 and did not fit never fits after a second
  encoding, so what is delivered always decodes in one step.
- Parsing an accepted path again can fail: `a/../ b` is accepted and becomes
  ` b`, which is refused. It fails exactly when the cleaned path has surrounding
  whitespace (`Paths.ReparseIsIdentity`; the example is
  `Paths.ReparseFailsConcretely`).

## Assumptions

- `process.NewFailure(op, nil)` is nil, and an error's `Retryable` answer does
  not change between the two places that ask for it. An error whose `Retryable`
  panics is terminal, as in the code.
- A record is numbered by the `Start` call that produced its process. A launcher
  that hands out one process twice makes two records, and "no join is replayed"
  is a statement about records.
- `Start`, `Wait`, `RequestStop`, `ForceKill`, `Result` and contexts answer
  arbitrarily. A result is successful when the process exited with status 0.
- Rename, link, exclusive create and remove are atomic, and change nothing when
  they fail. Another writer does not reuse inode numbers. Temporary names are
  arbitrary, also adversarial; only exclusive creation keeps them off existing
  entries.
- A bounded digest is two steps, the open with its status check and the read; a
  read that sees parts of two concurrent writes is not modelled.
- A result is refused for its size only, with the bound of 1 MiB; the sizes of
  JSON texts are those Go's encoder produces.
- The configured bounds have been validated: between 1 byte and 512 KiB.

## Model

| member | source | states |
|---|---|---|
| ShellTheorems.CleanupSuccessIsFinal | process.go:140-178 | In every interleaving, once a cleanup is about to return nil or has, admission is closed and nothing is owned, active or reserved; no continuation ever admits, starts or retains a process or calls Wait |
| ShellTheorems.QuietForever | process.go:41-53 | From a quiet state every run is quiet at each step: admissions are refused as closing, later cleanups find nothing to join, and neither the started processes nor any Wait history changes |
| ShellTheorems.CleanupSucceedsExactly | process.go:164-178 | A cleanup that gets through its snapshot reports success if and only if nothing is owned at that moment: the snapshot was complete and stayed complete |
| ShellTheorems.RefusedOnlyWhenClosedOrFull | process.go:44-49 | An execution is refused as closing exactly when admission is closed, and for the limit exactly when records and reserved leases together number 128 |
| ShellTheorems.HistoryIsLawful | process.go:96-121 | Over all runs, a record's Wait results are retryable failures followed by at most one success or terminal failure; a record that is not retained has none |
| ShellTheorems.OneWaitInFlight | process.go:96-107 | No two threads, executions or cleanups, are ever inside Wait on the same record |
| ShellTheorems.JoinIsNeverReplayed | process.go:101-118 | After a success or a terminal failure no run ever calls Wait on that record again |
| ShellTheorems.TerminalFailureIsKept | process.go:111-118 | A cached terminal failure never changes and is never dropped |
| ShellTheorems.CachedFailureIsTheAnswer | process.go:106-118 | What is cached is terminal and is the very last answer Wait gave, after retryable ones only |
| ShellTheorems.CachedExactlyWhenRefused | process.go:111-137 | In every reachable state a failure is cached, or about to be stored, exactly for the records whose last Wait answered with an error that says "not retryable" or panics when asked; a record whose last answer was any other failure is still owned with nothing cached |
| ShellTheorems.OwnershipIsConserved | process.go:55-65 | Owned records are distinct and were retained; a retained record that is no longer owned was released after a successful Wait |
| ShellTheorems.LiveProcessesAreBounded | process.go:41-78 | In every reachable state, also between Start and retain, at most 128 processes are started and not successfully joined; active and reservations count exactly the unfinished and the still reserved leases |
| ShellTheorems.VisibleResultOwnsNothing | shell.go:161-180 | A result shown to the model belongs to a run that started nothing or whose record has left owned after a successful join; a run whose record is still owned ends in an uncertain error |
| ShellTheorems.DrainedExactlyWhenIdle | process.go:67-78 | drained is closed exactly when admission is closed and no execution is active, and never twice |
| ShellTheorems.DrainedStaysClosed | process.go:144-150 | Once closed, drained stays closed along every run |
| ShellTheorems.NeverStuck | process.go:152-162 | As long as any thread is unfinished, some step is possible that needs no context to end: a cleanup holding the token is waited on only by threads that can move |
| ShellTheorems.CleanupIsBounded | process.go:167-199 | However the others interleave, a cleanup past its snapshot takes at most a fixed number of steps, linear in its records, plus five for each retryable Wait failure |
| ShellHistories.SnapshotSettled | process.go:164-166 | The snapshot taken after the drain holds no record that an execution is still joining: each is open or dead |
| ShellHistories.OthersSilent | process.go:96-121 | While one thread joins a record, no other thread's knowledge depends on it |
| ShellHistories.AdvanceKeepsHistories | process.go:96-121 | Every step inside waitOwned keeps the invariant on every record and thread |
| ShellInvariant.StepCounts | process.go:41-78 | Every step keeps active and reservations equal to the numbers of unfinished and of reserved leases |
| ShellInvariant.StepStaysWithinBudget | process.go:47-51 | Every step keeps owned plus reserved within 128 |
| ShellInvariant.StepHoldsDrain | process.go:158-162 | Once a cleanup is past the drain, admission stays closed and nothing becomes active again |
| Ownership.LockRegionsCommute | process.go:41-94 | Numbering heap records one to one turns each lock region of the class into the lock region of the step model |
| Ownership.ShellTool.BeginExecution | process.go:41-53 | Refuses or admits exactly as decided on the old state, and only an admission raises both counters and hands out a reserved lease |
| Ownership.ShellTool.RetainProcess | process.go:55-65 | Appends one fresh record at the end, also when the backing array must grow, and gives back the lease's reservation exactly once |
| Ownership.ShellTool.FinishExecution | process.go:67-78 | Takes the lease off the counters, its reservation only if still held, and closes drained at most once, when closing and idle |
| Ownership.ShellTool.ShiftDown | process.go:88-90 | The in-place shift removes exactly the slot asked for, keeps the order of the rest and clears the vacated slot |
| Ownership.ShellTool.ReleaseOwned | process.go:80-94 | Removes the record's first occurrence and nothing else; a nil or unknown record changes nothing |
| Ownership.ShellTool.BeginCleanup | process.go:144-150 | Closes admission, and drained too if idle and not closed before |
| Ownership.ShellTool.Snapshot | process.go:164-166 | The copy equals the owned slice and shares no storage with it |
| Ownership.ShellTool.WaitOwned | process.go:96-138 | Wait is called exactly when no failure is cached; success releases; a failure is cached exactly if its error says "not retryable" or panics when asked, and after any other failure the record is as it was |
| Ownership.ShellTool.RetryWaitOwned | process.go:180-199 | Calls Wait up to the first decisive answer and returns it; with a live context, unclassified and retryable failures are each followed by another call, and the success after them releases the record; a cached failure is returned without any call |
| Ownership.ShellTool.JoinSnapshot | process.go:164-178 | With nobody else intervening, cleanup's loop over its copy performs every task in turn while releases shift the live slice, and reports success exactly when it ends owning nothing and the context was alive after every record |
| Ownership.LoopSucceedsExactly | process.go:167-177 | From any distinct records, some kept and some to come, the loop succeeds if and only if it ends owning none and the context outlived every record |
| ShellSequential.JoinAloneIsWaitOwned | process.go:96-121 | The interleaving model's steps from the check to the return, taken without interruption, leave the shell, the cached failure, the Wait history and the result as the class's WaitOwned does |
| ShellSequential.RetryAloneIsRetryWaitOwned | process.go:180-199 | The model's retry loop, uninterrupted, calls Wait up to the first decisive answer as the class's RetryWaitOwned does, records those answers and no others, and touches no other record |
| ShellSequential.LoopRunIsJoinSnapshot | process.go:167-177 | The model's cleanup loop, uninterrupted, leaves the shell and gives the answer that the class's JoinSnapshot does |
| Common.WithoutDistinct | process.go:86-93 | On distinct records, removal takes out exactly the one asked for and shortens the slice by one, or changes nothing |
| Outcomes.OkAgreesExactly | shell.go:267-276 | On an arbitrary outcome record the captured ok flag equals "no problem and no error" except on exactly one kind: status 0, nothing started, no other error, and a wait error |
| Outcomes.RunsCarryNoStrayWaitError | process.go:201-304 | A wait error is carried exactly by a run that started a process and whose join failed |
| Outcomes.RunClassification | shell.go:285-362 | For every outcome a run can build: ok means no problem and no error; an error is uncertain exactly when a process was started; the control-error and no-result branches never decide |
| Outcomes.VerdictByPath | process.go:201-304 | What the model is told, from what happened: success, timeout, not started and each bad exit exactly on their own paths, and an interruption by the caller always reaches the host |
| Outcomes.ErrorByPath | shell.go:285-344 | Why the host is told of an error, each reason exactly on its own paths, and which context's end it is told of |
| Outcomes.FieldsByPath | process.go:201-304 | Every field of the outcome record, from what happened on the path |
| Outcomes.VisibleMeansJoined | shell.go:285-344 | A visible result implies that nothing was started or the join succeeded, and managed cleanup is reported exactly for the latter |
| Outcomes.UnjoinedIsUncertain | shell.go:299-328 | A started process whose join failed always yields an uncertain error |
| ReplaceProtocol.ConcurrentEqualsSerial | replace.go:106-110 | Without another writer, every run of concurrent calls with cancellation anywhere equals the calls made one after another in lease order: the same filesystem and the same end of every call |
| ReplaceProtocol.ConcurrentBatchCommitsOnce | replace.go:130-149 | In any interleaving of calls naming one path and one expectation, at most one commits |
| ReplaceProtocol.ConcurrentCommitsFormHashChain | replace.go:332-338 | In any interleaving without another writer, of two commits onto a path with none between them in lease order, the second call expects exactly the digest of what the first one wrote |
| ReplaceStaleness.StaleCommitNeedsAnotherWriter | replace.go:328-352 | If a replace commits over anything but a regular file within the bound with the expected digest, the run holds a step of another writer after the call's last opening of its target |
| ReplaceStaleness.WriterBeforeReadIsOverwritten | replace.go:389-403 | Every replace that could go ahead has a run from the start in which the only step of another writer stands between the attempt's open and its read, and in which the call then commits over content with another digest |
| ReplaceSafety.SwapAfterOpenGoesUnnoticed | replace.go:389-411 | Left alone from its read on, an attempt commits if and only if the opened file has the expected digest, whatever regular file the entry leads to by then |
| ReplaceProtocol.CreateKeepsEveryEntry | replace.go:374-387 | In create mode no step, in any interleaving with other calls and writers, touches an entry other than the call's own temporary |
| ReplaceProtocol.CommitReportedExactly | replace.go:110-127 | Whatever others write, a finished call has committed at most once, and its outcome and its reply admit a commit exactly when its one rename or link succeeded; a same-digest call never commits |
| ReplaceProtocol.DifferingReadNeverCommits | replace.go:332-338 | A digest read that differs, in preflight or in any attempt, ends that call in an error; neither before nor ever after does it commit |
| ReplaceProtocol.OutcomeIsTold | replace.go:170-244 | Whatever others write, a call ends cancelled, unchanged or refused with some code if and only if one of its steps came upon the reason for it, and then it never commits; a committed call is durable if and only if its syncs did not fail, and cleaned if and only if its first removal did not |
| ReplaceProtocol.ReplyIsTold | replace.go:110-127 | The reply of a finished call, in any interleaving and whatever others write: a cancellation exactly on an ended context, a problem exactly for its reason, a denial of change exactly when nothing was to change; an encodable commit says durable, cleaned, created and ok exactly as it went |
| ReplaceEvents.OutcomeTellsEvents | replace.go:285-460 | A call ends cancelled, unchanged or refused with some code if and only if one of its steps comes upon the reason for it |
| ReplaceEvents.CommitTellsEvents | replace.go:213-243 | A commit is durable exactly when the syncs did not fail, and cleaned exactly when its first removal did not |
| ReplaceEvents.ReplyTellsEvents | replace.go:110-127 | What the reply tells, from what the call came upon: cancellation, each problem, no change, durability, cleanup, creation and ok |
| ReplaceEvents.SixteenNames | replace.go:413-433 | No temporary could be created exactly when creating one failed or sixteen proposed names were taken |
| ReplaceEvents.SixtyFourRenames | replace.go:328-360 | A replace is given up exactly when a rename fails in a way that cannot be retried, or sixty-four have failed |
| ReplaceSerial.CallIsAtomic | replace.go:183-243 | An undisturbed call that does not report a commit leaves every old entry and content as they were; one that does has moved exactly its target to a new file with the requested content, from a state that allowed it; either way its own temporary is still named if and only if the deferred removal failed |
| ReplaceSerial.TemporaryStaysExactly | replace.go:202-206 | From any point of an undisturbed call, the entries at its end hold its temporary exactly if its deferred removal fails |
| ReplaceSerial.CleanedFlagIsRightExactly | replace.go:213-222 | A committed call says its temporary is cleaned exactly when its first removal succeeded; none is left exactly when the deferred removal did not fail; so the flag is right if and only if the first succeeded or the deferred one failed too |
| ReplaceSerial.CleanedFlagCanBeWrong | replace.go:202-222 | Wherever a create can succeed it has a run whose reply denies a cleanup that has taken place |
| ReplaceSerial.ReplyTellsCommit | replace.go:110-127 | The reply admits a commit, or leaves it uncertain, exactly when one took place, also when the result cannot be encoded |
| ReplaceSerial.CommitsExactlyWhenReady | replace.go:285-361 | In a benign environment a call commits if and only if its target is free (create) or holds the expected digest and not yet the content (replace) |
| ReplaceAnswers.AnswerByInput | replace.go:285-319 | Left alone and failed by nothing, each answer is given exactly to its inputs: already exists, not found, not regular (symbolic links included), too large, stale, unchanged, committed; and every answer but a commit leaves the filesystem as it was |
| ReplaceSerial.FreshExpectationIsAccepted | replace.go:309-318 | A fresh expectation is always accepted: committed, or unchanged when the content already has that digest |
| ReplaceSerial.EveryCallEnds | replace.go:321-361 | Whatever the environment answers, a call is over after at most 360 steps |
| ReplaceSerial.EntryKeepsOthers | replace.go:183-243 | A complete call leaves every existing entry and its content alone unless it commits onto that entry |
| ReplaceSerial.ReplayCommitsNothing | replace.go:309-318 | After a committed call, whatever it said about durability or cleanup, no number of repetitions commits again, with calls for other paths in between or not |
| ReplaceSerial.ReplayIsStale | replace.go:389-411 | A replay at once changes nothing and, unless a call fails, is told "stale"; never "too large", because the committed content passed the write bound |
| ReplaceSerial.BatchCommitsOnce | replace.go:309-318 | In a series of calls that share path and expectation at most one commits |
| ReplaceSerial.CommitsFormHashChain | replace.go:332-338 | Of two consecutive commits on a path, the second expects exactly the digest the first left |
| ReplaceSerial.NextCommitNamesDigest | replace.go:309-315 | While nobody commits onto a path its digest stays, and the next commit onto it names that digest |
| ReplaceSafety.StepFootprint | replace.go:170-244 | No step touches an entry but the call's temporary and, when it commits, the target, or a content but its own |
| ReplaceSafety.StageKept | replace.go:170-244 | Every step stays within the protocol, counts at most one commit, and passes the point of commit exactly by committing |
| ReplaceSafety.CommitOutlivesCancellation | replace.go:213-243 | Once the rename or link has succeeded no later step looks at the context, and the call stays committed |
| ReplaceSafety.AttemptKept | replace.go:328-348 | Left alone since its open, an attempt that reaches the rename has a target with the expected digest |
| ReplaceSafety.AloneKept | replace.go:170-244 | Every undisturbed step keeps the exact relation between the filesystem now and the one the call started on |
| ReplaceCall.RunCallAppend | replace.go:170-244 | Running a call step by step from the back is running it from the front |
| ReplaceTools.ReplaceTool.Execute | replace.go:106-127 | The code from the lease on: without the lease nothing changes; with it the call ends as the call machine does on the same answers, all or nothing, its temporary left exactly if the deferred removal failed; the reply tells what the call came upon; an admitted commit came from a ready state, and the lease is free again |
| ReplaceTools.ReplaceTool.Replace | replace.go:170-244 | The body under the lease ends exactly as the call machine does on the same answers |
| ReplaceTools.ReplaceTool.AcquireCommitLease | replace.go:130-149 | The free lease is taken exactly when the context has ended neither before nor just after; else it is left free |
| ReplaceTools.ReplaceTool.Preflight | replace.go:285-319 | Follows the machine through preflight and changes no entry or content; only a free name (create) or a fresh regular file (replace) passes, and any other entry is refused as not regular |
| ReplaceTools.ReplaceTool.WriteTemporary | replace.go:413-433 | The bounded choice of names follows the machine; on success exactly the temporary is left to clean up |
| ReplaceTools.ReplaceTool.WriteAndSync | replace.go:443-460 | Writing follows the machine, with the context looked at before and after |
| ReplaceTools.ReplaceTool.CommitPrepared | replace.go:252-269 | The commit of the request's mode follows the machine to a commit or to the removal of the temporary |
| ReplaceTools.ReplaceTool.CommitCreate | replace.go:374-379 | The context check and Lstat before the exclusive link follow the machine |
| ReplaceTools.ReplaceTool.LinkTemporary | replace.go:380-386 | The exclusive link commits, or the second Lstat names the reason of the refusal |
| ReplaceTools.ReplaceTool.CommitReplace | replace.go:321-361 | The retry loop ends within 64 attempts, each with all checks, in one commit or in a refusal |
| ReplaceTools.ReplaceTool.RenameTarget | replace.go:346-358 | One rename: committed, refused, cancelled, or retried only when retryable and not at the last attempt |
| ReplaceTools.ReplaceTool.FinishCommitted | replace.go:213-243 | After the commit the outcome is committed whatever fails, with durability and cleanup reported as they went |
| Digests.ReplaceModeAcceptsExactlyDigests | replace.go:151-168 | Replace mode accepts a text if and only if it is the lower-case hexadecimal image of a 32-byte value |
| Digests.ModeProblemExactly | replace.go:151-168 | Which problem a digest text has, from its length and its characters |
| Digests.HexRoundTrip | replace.go:161-166 | A printed digest decodes to the value it was printed from and is its own lower-case form |
| Digests.LowerTextIsPrinted | replace.go:158-167 | A lower-case text that decodes is the printed form of what it decodes to |
| Digests.HexInjective | replace.go:313-313 | Comparing digest texts is comparing digests |
| Handoff.ReadDigestIsAccepted | read.go:156-159 | Any digest a page carries passes replace-mode validation, and a replace naming it on the file that was read, within the write bound, is accepted |
| Captures.BoundedCapture.Write | capture.go:26-39 | A write leaves the capture where the specification says: its stream's share of the first maximum bytes of the merged output, the remaining budget, truncation exactly when more was written, the count saturated |
| Captures.CaptureAll | capture.go:21-39 | Any interleaving of writes to both streams refines "keep the first maximum bytes of the merged output", so write boundaries do not matter |
| Captures.WriteChunk | capture.go:26-39 | A write to one stream leaves both captures where the specification of the merged output says |
| Captures.NewCapturePair | capture.go:21-24 | Both captures start empty on one shared budget |
| Captures.SharesAfterChunk | capture.go:30-37 | What one chunk adds to either stream's share, to the budget and to the count |
| Captures.BudgetIsConserved | capture.go:30-37 | What both streams keep and what remains make up the maximum, and nothing is dropped before it is reached |
| Captures.StreamsAreFaithful | capture.go:26-45 | Each stream keeps a prefix of what was written to it, all of it unless the budget ran out, and counts the true total saturated at the largest 64-bit value |
| Captures.MergedProjects | capture.go:26-39 | The merged output, seen from one stream, is what was written to that stream |
| Captures.SaturatingAdd | capture.go:47-52 | The sum, or the largest 64-bit value where it would overflow |
| Encodings.Base64RoundTrip | read.go:152-155 | One decoding of base64 text recovers the exact bytes |
| Encodings.Base64Spelling | read.go:101-103 | Base64 text has the padded length, is valid UTF-8 and needs no JSON escaping |
| Encodings.ValidMeansEncoded | read.go:152-152 | A text counts as valid UTF-8 if and only if it is the encoding of some sequence of Unicode scalar values |
| Encodings.StandardAlphabet | read.go:154-154 | The base64 digits are those of the standard alphabet |
| Encodings.JsonRoundTrip | execution.go:105-115 | The JSON text of a string, whose length decides what fits, reads back as that string |
| Encodings.JsonSizeBounds | execution.go:105-115 | JSON escaping never shrinks a text and at most multiplies it by six |
| Encodings.FallbackFits | config.go:21-21 | With at most half the payload bound captured, base64 takes at most 699052 bytes for one stream and 699056 for two, so an envelope of 349520 bytes always fits |
| Encodings.FallbackBoundsAreTight | config.go:21-21 | Both bounds are reached |
| Encodings.CarriedDecodes | read.go:145-155 | Text or base64, what is carried decodes to the bytes and is valid UTF-8 |
| Reads.ReadPage | read.go:76-84 | Accepts exactly the legal offsets and limits, names the right refusal, and returns the page that a read of that file must return, as plain text exactly if its bytes are valid UTF-8 |
| Reads.WalkReassembles | read.go:134-151 | Following NextOffset with any legal limits, the decoded pages concatenate to the file from the starting offset on |
| Reads.WalkAdvances | read.go:141-151 | The walk has at most one page more than bytes remain, and each page starts strictly beyond the one before, where that one said |
| Reads.WalkExists | read.go:134-151 | From every offset and for all legal limits the walk completes |
| Reads.DigestMeansWholeFile | read.go:156-159 | A digest appears exactly when the one page is the whole file, and then it is that file's |
| Reads.PageDecodes | read.go:145-155 | Every page decodes in one step to the slice it stands for |
| Reads.SecondEncodingNeverFits | read.go:101-104 | Text that is base64 already and did not fit does not fit after a second encoding, for any envelope |
| Reads.ReadAndDeliver | read.go:90-111 | Whatever the envelope, a delivered page decodes in one step to exactly the bytes read, and is the file's own text exactly if the bytes are valid UTF-8 and fit as such; with the envelope within its room every legal read is delivered |
| ShellOutput.CapturedShellContent | shell.go:260-283 | The content carries exactly the captured bytes, decodable in one step, with flags, exit code, counts and truncation of the run |
| ShellOutput.ExitCodeByPath | shell.go:392-401 | The exit code is n exactly when the run observed status n, or -1 when it observed none |
| ShellOutput.EncodeShellResult | shell.go:403-417 | Sends the content, or its base64 form if only that fits, and never encodes base64 text again |
| ShellOutput.ReportOutcome | shell.go:260-283 | From any writes to a delivered result: each stream decodes to its share of the first maximum bytes of the merged output, as plain text exactly if both are text and fit, and an envelope within its room is always delivered |
| ShellOutput.ReportRun | shell.go:135-180 | From any writes and any path of a run to what the call gives back: which runs are delivered, with ok, exit code, timeout, cleanup and problem told from what happened, and which reach the host as uncertain |
| Paths.EscapesExactlyWhenClimbing | path.go:28-36 | An otherwise well-formed request is refused as escaping exactly when it is absolute or some prefix has more ".." than names |
| Paths.MalformedExactly | path.go:29-31 | A request is malformed exactly when it is empty, begins or ends with one of the twenty-five white space characters, or holds a NUL |
| Paths.NamesRootExactly | path.go:37-39 | A request is refused for naming the root exactly when it descends and climbs equally often without climbing out |
| Paths.CleaningKeepsMeaning | path.go:32-40 | From every directory, following the accepted path component by component leads where the request leads, never above that directory |
| Paths.StackShape | path.go:32-32 | Cleaning leaves first the climbs, then names, as many as net out; a climb is left exactly when some prefix climbs |
| Paths.AcceptedIsClean | path.go:37-40 | An accepted path is relative and has no empty, "." or ".." component, except the lone root where that is allowed |
| Paths.ReparseIsIdentity | path.go:28-41 | Parsing an accepted path again returns it unchanged if and only if it has no surrounding whitespace |
| Paths.ReparseCanFail | path.go:29-32 | A family of accepted requests whose cleaned form is refused, because a cancelled component exposed a leading space |
| Paths.JoinedNamesAreClean | path.go:65-65 | A path joined from names is its own cleaned form, so joining component by component gives the prefixes themselves |
| Paths.RejectSymlinkComponents | path.go:59-75 | Passes only if every prefix of the path was looked at and is no link; else the first bad prefix decides which refusal |

## Left out

- Concurrency in the classes: the methods of `Ownership.ShellTool` and `ReplaceTools.ReplaceTool` are single lock regions or sequential code; interleaving is modelled in `ShellProtocol` and `ReplaceProtocol`.
- Ownership.ShellTool.WaitOwned: states the case in which no other goroutine intervenes; `ShellSequential.JoinAloneIsWaitOwned` ties it to the interleaving model, where others may.
- Ownership.ShellTool.JoinSnapshot: likewise; with others intervening, what cleanup's loop promises is `ShellTheorems.CleanupSucceedsExactly`.
- ReplaceSerial.CallIsAtomic: that the temporary goes exactly if its removal succeeds is stated without another writer, who could rename it away or recreate it.
- The outcome record is a value assembled along each path, where the source fills a struct field by field; its content is the same.
- Stopping and observing a process (`RequestStop`, the grace timer, `ForceKill`, `Result`) is one step up to the join; no other thread can see its parts.
- Timers and durations: a timeout, a context's end or the end of a retry wait may happen whenever it is waited for. A cleanup with a nil context is not modelled.
- ShellTheorems.CleanupIsBounded: bounds a cleanup's own steps by its retryable Wait failures; that these are finite is the environment's part (Wait succeeds, fails terminally, or the context ends).
- ReplaceSafety.StepFootprint: the mode bits given to the temporary file are not modelled, nor is what fsync achieves beyond whether it fails.
- A failing close of the temporary is reported under the code of a failing sync.
- A cancelled call that got the lease and gave it back at once is one step with giving up before it.
- Names of entries are opaque; parent directories and the resolution of paths inside the worktree are not modelled. Where a symbolic link leads is the environment's choice at each open.
- Torn reads within one bounded digest, and short writes that report success.
- Argument decoding, argument vectors, environment selection, progress reports, configuration defaults, error message texts.
- JSON: only the size of the two text fields and an arbitrary size for the rest of a result.
- SHA-256 itself, and the Unicode tables beyond the White_Space characters.
- Preparing a command (opening its directory, resolving its executable) is one step that may fail before anything is started.
- Windows: upper-cased environment names, volume names, its rename and its retryable errors; retryability is the environment's choice.
- The quality gate, auto-configuration and the manifest, which would add only easy members.
