# Koguchi side-effect chokepoint: a verified model

Koguchi lets agents act on the world only through one proxy. Every call is recorded in two phases (a pending event, the
effect, a committed or failed event) in an append-only, hash-chained log; a later pass compares that log with the
workspace. This project models that system and its smaller neighbours and proves what the log, the proxy and the passes
guarantee when appends fail, effects fail and the process crashes between any two durable steps.

The state of the system is `World.World`: the event log, the decision log and the files. `World.States` lists, for one
call, every durable state it goes through; the methods of `Proxy.ToolProxy` are proved to go through exactly those
states (ghost field `history`), and `Runs.Run` composes calls, reconciliation passes and foreign changes, each cut at
any state by a crash. SHA-256 (section 6.2 of FIPS 180-4) is a parameter about which only the output length is known:
theorems that depend on it conclude "or an explicit collision or preimage of the genesis hash among these byte strings"
(`Tamper.Broken`). Beside the theorems about runs, tables written over the inputs alone say what every operation answers and records
(`Answers.dfy`, `PassReport.dfy`), what the canonical bytes read as (`HashChain.CanonicalReads`) and what is stored
(`Events.PayloadSubject`, `Store.CleanMeaning`), so that no theorem rests on a definition nobody checks. Oracles stand for
everything outside: verdicts of the databases, faults of the file system, outcomes
of processes and requests, fresh ids and times, the message catalogue and path resolution.

| file | part of the system |
|---|---|
| `Prelude.dfy`, `Utf8.dfy` | sequences and ordered dictionaries; UTF-8 (section 3 of RFC 3629) |
| `HashChain.dfy` | JSON values, canonical text (section 7 of RFC 8259), the hash |
| `Events.dfy` | envelopes, events, payloads, sealing |
| `Store.dfy`, `Tamper.dfy`, `ChainedLog.dfy` | the execution store, tamper evidence, interleaved writers |
| `Decision.dfy` | the decision log |
| `World.dfy`, `Proxy.dfy`, `Operations.dfy`, `Answers.dfy` | the proxy operations, as states and as methods; single-call theorems and tables |
| `Reconcile.dfy`, `PassReport.dfy` | the reconciliation pass, as loops and as a table |
| `Runs.dfy`, `Records.dfy`, `Diagnosis.dfy`, `Counterexamples.dfy` | theorems over whole runs, and the runs that show their conditions are needed |
| `FilesystemDiff.dfy` | the filesystem diff |
| `ServiceRuntime.dfy`, `Scheduler.dfy`, `SchedulerRuns.dfy`, `EndToEnd.dfy` | the execution surface, the job scheduler, the two joined |

Six places where the code does less than one may expect; each is stated exactly:

- `verify_chain` covers the payload without its `hash` key and the stored hash, but not the columns that `pending()`
  selects on (`Tamper.Uncovered`, `Tamper.RelabelledHidesPending`).
- `pending()` closes a record id for good, so the pending event of a call that reuses the id of a closed record is never
  returned by it (`Records.ReuseHidesPending`; `Counterexamples.ReusedIdHides` is a run in which a write that was carried
  out but never confirmed is not pending, and in which its file is flagged as a change behind the proxy when it is
  another one). Theorems about a record ask that no two calls of the run share its id; `Diagnosis.LandedFlagged` says
  what happens to the target of a write whatever ids are reused.
- A pending write is reported as executed also when it was not: exactly when its target was there before, or its
  envelope names another tool than `filesystem.write` and `filesystem.mkdir`, which `write_file` accepts and the todo
  integration passes (`Diagnosis.ExactDiagnosis`; `Counterexamples.ExecutedWithoutRename` and
  `Counterexamples.OtherToolExecuted` are such runs).
- A write that succeeded, is the last one to its target and is followed by no change behind the proxy may still be
  reported as diverged or deleted: `write_file` accepts a target that has the name another call uses for its temporary
  file, and that call takes the file away. `Diagnosis.LastRenameStays` and `Diagnosis.LastWriter` say exactly what is
  left and what is reported, `Diagnosis.LastWriterConsistent` that all is well on every path that no later write uses as
  its temporary name, and `Counterexamples.TemporaryNameLost` is a run that loses a file.
- A failing `make_directory` may change the tree, and the event it records says `none` all the same
  (`Operations.MkdirFailed`; `Counterexamples.MkdirFailureChanges` is such a call). It is certain not to change it
  exactly when a file is in the way or everything above the target exists (`Operations.MkdirFailure`).
- A backend that raises leaves no audit event (`ServiceRuntime.EventAgrees`).

Two differences between code and documentation, where the model follows the code: ADR-023 draws a transition from pending
to skipped, but skipped jobs are created skipped; the planner's docstring speaks of skipping repeated request ids, but
within one planning a repeated id replaces the earlier job (`SchedulerRuns.PlanOnEmpty`).

## Model

| member | source | states |
|---|---|---|
| Utf8.RoundTrip | src/koguchi/hashchain.py:16-21 | reading the bytes by the table of the standard, which allows one form per character, gives the text back |
| Utf8.Injective | src/koguchi/hashchain.py:16-21 | different texts have different UTF-8 bytes, so hashing bytes loses nothing |
| HashChain.GenesisExact | src/koguchi/hashchain.py:5 | the genesis hash is 64 zeros |
| HashChain.LessExact | src/koguchi/hashchain.py:16 | keys are compared as texts: a proper prefix comes first, and otherwise the smaller character where they first differ |
| HashChain.CanonicalMeaning | src/koguchi/hashchain.py:8-16 | sorting the keys at every level changes nothing a map can see, and leaves the keys of every object ascending |
| HashChain.ReadText | src/koguchi/hashchain.py:16 | a strict reader of the compact JSON that json.dumps writes, with its literals, separators and escapes, takes the text of a value back to the value |
| HashChain.CanonicalReads | src/koguchi/hashchain.py:8-16 | the canonical bytes read as UTF-8 and JSON give exactly the one value with ascending keys that means the same as the payload |
| HashChain.HashedText | src/koguchi/hashchain.py:19-22 | what is hashed is the text of the previous hash followed by the canonical text |
| HashChain.OrderedUnique | src/koguchi/hashchain.py:16 | a value whose objects are strictly sorted is fixed by what it means as nested maps |
| HashChain.TextInjective | src/koguchi/hashchain.py:16 | the JSON text of a value determines the value and where the text ends, escapes and number tokens included |
| HashChain.CanonicalForm | src/koguchi/hashchain.py:8-16 | two payloads have the same canonical bytes if and only if they are equal as nested maps, whatever their insertion order |
| HashChain.HashInputInjective | src/koguchi/hashchain.py:19-22 | behind 64-character previous hashes the hashed concatenation splits in one way only |
| Events.PayloadRoundTrip | src/koguchi/store.py:66-77 | reading back a stored payload gives exactly the event that was appended |
| Events.PayloadSubject | src/koguchi/store.py:66-77 | the stored payload has these fields under their names, with the names of the event types |
| Events.PayloadRest | src/koguchi/store.py:66-77 | and these, with the names of the side effects, and no others |
| Events.SealedHash | src/koguchi/proxy.py:38-59 | the hash of a new event can be recomputed from the payload that is stored |
| Store.FindingsExact | src/koguchi/store.py:136-167 | the verifier reports a finding at a row exactly where the link or the hash of that row is broken |
| Store.FindingsAscend | src/koguchi/store.py:136-167 | the findings come row by row, each once, a broken link before a broken hash |
| Store.FindingsRaise | src/koguchi/store.py:141-155 | verification raises exactly when a recorded previous hash is not a string |
| Store.CleanExact | src/koguchi/store.py:120-169 | an empty `verify_chain()` means every row links to the hash before it and hashes to its own stored hash, and nothing less |
| Store.CleanMeaning | src/koguchi/store.py:134-167 | a log is clean if and only if every row records the hash stored before it, the first one the genesis hash, and stores the hash of that and of its content |
| Store.MissingPrevious | src/koguchi/store.py:141-142 | a row without a recorded previous hash is reported |
| Store.QueriesRefine | src/koguchi/store.py:91-118 | the three queries over columns and stored payloads return exactly the open, the committed and the record's events of the appended log |
| Store.SQLiteExecutionStore.Append | src/koguchi/store.py:65-83 | append adds one row or changes nothing, and refuses a used event id |
| Store.SQLiteExecutionStore.LastHash | src/koguchi/store.py:85-89 | the hash of the last appended event, or the genesis hash |
| Store.SQLiteExecutionStore.EventsFor | src/koguchi/store.py:91-96 | exactly the events of the record, in order |
| Store.SQLiteExecutionStore.Pending | src/koguchi/store.py:98-110 | exactly the pending events whose record no committed or failed event closes |
| Store.SQLiteExecutionStore.Committed | src/koguchi/store.py:112-118 | exactly the committed events, in order |
| Store.SQLiteExecutionStore.VerifyChain | src/koguchi/store.py:120-169 | on any rows, tampered or not, the loop computes the findings that `FindingsExact` and `FindingsRaise` characterise |
| Tamper.TamperEvidence | src/koguchi/store.py:130-169 | two clean logs that end in the same stored hash have the same length and equal payloads row by row, or the hash broke on their inputs |
| Tamper.HashesDistinct | src/koguchi/store.py:130-169 | a clean log never shows the same last hash after two different lengths, unless the hash broke |
| Tamper.Rearrangement | src/koguchi/store.py:136-167 | of all logs built from rows of a clean log, in any order and with repetitions, exactly the prefixes verify: truncation is the only unseen rearrangement |
| Tamper.OverwriteDetected | src/koguchi/store.py:136-167 | overwriting one payload yields findings at that row and nowhere else, none exactly when the content kept its meaning, or verification raises, unless a collision is exhibited |
| Tamper.Uncovered | src/koguchi/store.py:130-155 | the findings do not depend on the selectable columns or on the payload's own hash key |
| Tamper.RelabelledHidesPending | src/koguchi/store.py:98-110 | a log with its type column relabelled verifies as before while nothing in it is pending |
| ChainedLog.LinkedAppend | src/koguchi/proxy.py:136-147 | appending an event sealed behind the last hash, or failing to, keeps the chain |
| ChainedLog.LinkedClean | src/koguchi/store.py:120-169 | a log whose events are each sealed behind the one before verifies without findings |
| ChainedLog.Interleaved | src/koguchi/proxy.py:136-147 | with interleaved writers no hash is ever wrong, and a previous-hash mismatch is reported at exactly the rows whose writer's reading was stale |
| Decisions.MakeDecision | src/koguchi/decision.py:153-176 | the hash of a new decision can be recomputed from the recorded fields and the hash before it |
| Decisions.CoveredFields | src/koguchi/decision.py:161-175 | the hash of a decision covers every field but the hash, and nothing else |
| Decisions.LinkedMeaning | src/koguchi/decision.py:134-148 | linked means that the first decision names the genesis hash and every other one the hash of the one before |
| Decisions.LinkageFindingsExact | src/koguchi/decision.py:129-150 | the check reports exactly the rows that name another hash, with their decision ids |
| Decisions.LinkageFindingsAscend | src/koguchi/decision.py:129-150 | each row is reported once, in order |
| Decisions.LinkageExact | src/koguchi/decision.py:129-150 | the linkage check is silent if and only if every decision links to the one before it |
| Decisions.SQLiteDecisionStore.Record | src/koguchi/decision.py:78-102 | a decision is added whole or not at all, and a used id is refused |
| Decisions.SQLiteDecisionStore.LastHash | src/koguchi/decision.py:104-108 | the hash of the last decision, or the genesis hash |
| Decisions.SQLiteDecisionStore.VerifyChain | src/koguchi/decision.py:129-150 | the loop finds nothing if and only if the decisions are linked |
| Proxy.ToolProxy.PrepareExecution | src/koguchi/proxy.py:99-151 | the first phase goes through exactly the modelled states and succeeds exactly when both records were made |
| Proxy.ToolProxy.WriteFile | src/koguchi/proxy.py:153-256 | the atomic write goes through exactly the durable states that the crash-safety and run theorems are about, and answers accordingly |
| Proxy.ToolProxy.ExecuteShell | src/koguchi/proxy.py:258-365 | the same for a process, whatever it does to the files |
| Proxy.ToolProxy.MakeDirectory | src/koguchi/proxy.py:367-444 | the same for a directory and its missing parents, created one by one from the top; it may be refused, or crash, after any of them |
| Proxy.ToolProxy.HttpGet | src/koguchi/proxy.py:446-573 | the same for a request; an exception that is not caught leaves the pending event alone on record |
| Answers.AttemptedExact | src/koguchi/proxy.py:99-151 | the side effect is attempted if and only if neither gate denies, the decision the call needs is recorded under an unused id, and so is its pending event |
| Answers.DeniedDoesNothing | src/koguchi/proxy.py:79-97 | a call that the policy or the boundary denies is rejected and changes nothing, whatever the operation |
| Answers.DecisionRecorded | src/koguchi/proxy.py:117-132 | an attempted call with an intent, where there is a decision store, adds exactly one decision with its id, action, intent and context before its pending event; any other adds none |
| Answers.DecisionAlone | src/koguchi/proxy.py:114-149 | a rejected call changes no log and no file, and leaves a decision behind exactly when only its pending event failed |
| Answers.PendingFields | src/koguchi/proxy.py:135-146 | the pending event, field by field |
| Answers.ClosingFields | src/koguchi/proxy.py:236-248 | the closing event repeats the pending one but for its id, its link and what it tells of the effect |
| Answers.WriteTable | src/koguchi/proxy.py:153-256 | what `write_file` answers and records for every request, store, tree and fault |
| Answers.MkdirTable | src/koguchi/proxy.py:367-444 | the same for `make_directory` |
| Answers.PathTextExact | src/koguchi/proxy.py:425 | how the path whose digest is recorded is written |
| Answers.ShellTable | src/koguchi/proxy.py:258-365 | a process that ended is committed and confirmed whatever its exit code, one that timed out failed with side effect unknown, one that did not start failed with none |
| Answers.HttpTable | src/koguchi/proxy.py:446-573 | any full response is committed, a partial one, a timeout and a failed connection fail as partial, unknown and none, and any other exception leaves the record open |
| Operations.CrashSafe | src/koguchi/proxy.py:196-256 | in every durable state of a write the target is wholly old or, only after the rename, wholly new; no path but target and temporary file differs; nothing differs before the pending event is stored |
| Operations.WriteResult | src/koguchi/events.py:10-14 | each result of a write fixes which events were appended, what became of the target, and that no removable temporary file is left |
| Operations.CallResult | src/koguchi/proxy.py:258-573 | each result of any call fixes which events were appended and what the closing event tells of the effect |
| Operations.MkdirSafe | src/koguchi/proxy.py:395-444 | in every durable state of a mkdir nothing that was there changed, what is new are directories at or above the target, and nothing is new before the pending event is stored |
| Operations.MkdirDone | src/koguchi/proxy.py:403-444 | after SUCCESS or UNCONFIRMED the target and everything above it are directories |
| Operations.MkdirFailure | src/koguchi/proxy.py:403-423 | no failure of mkdir can change the tree if and only if a file stands at or above the target, or everything above the target is there already |
| Operations.MkdirFailed | src/koguchi/proxy.py:403-423 | a mkdir that fails leaves behind what it got to create, and records execution_failed with side effect none |
| Runs.ChainsHold | src/koguchi/proxy.py:114-151 | after any run, with any failures and crashes, both chains verify and every decision reference names a recorded decision about the same action, intent and context |
| Records.RecordHistory | src/koguchi/proxy.py:134-149 | after a whole run, the events of a record whose id no other call uses are exactly those its own call appended |
| Records.LifeCycle | src/koguchi/events.py:17-24 | over any run the events of a record whose id no two calls share are a prefix of pending, committed or of pending, failed |
| Records.SameReferences | src/koguchi/proxy.py:135-146 | all events of such a record carry the same intent, envelope, decision and context references |
| Records.EveryIntentNamed | src/koguchi/proxy.py:117-146 | with a decision store, after any run every event of a call with an intent names a recorded decision about it; without one, or without an intent, it names none |
| Records.Conservation | src/koguchi/store.py:98-118 | over any run with fresh ids, pending events are the committed, the failed and the still pending ones counted together |
| Records.ReuseHidesPending | src/koguchi/store.py:98-110 | a new pending event is returned by `pending()` if and only if its record id was not closed before |
| Reconcile.Reconcile | src/koguchi/reconcile.py:40-140 | the three loops report and record exactly the modelled findings, whatever appends fail |
| Reconcile.AppendObservation | src/koguchi/reconcile.py:143-160 | one observation event sealed behind the last hash, or nothing when the append fails |
| PassReport.ReportExact | src/koguchi/reconcile.py:40-140 | a pass reports exactly a verdict on every open record, one on the last commit of every record, and one on every file no record accounts for |
| PassReport.ReportInOrder | src/koguchi/reconcile.py:40-140 | one verdict per open record in the order of the log, then one per committed record, then one per unaccounted file in the order of the walk |
| PassReport.LatestInOrder | src/koguchi/reconcile.py:93-96 | the dictionary of commits has one entry per committed record, in the order of the first commits |
| PassReport.RecordedExact | src/koguchi/reconcile.py:86-138 | the findings about commits are reported only, all others are recorded in their order |
| PassReport.Observed | src/koguchi/reconcile.py:143-160 | every finding whose append is accepted leaves exactly one observation with its confidence and the digest of its detail, under the record it is about |
| Reconcile.ObservingQueries | src/koguchi/store.py:98-118 | observations neither open, close nor commit a record |
| Reconcile.Stable | src/koguchi/reconcile.py:40-160 | a pass leaves pending and committed records as they were, so a second pass over unchanged files reports the same |
| Reconcile.ExternalExact | src/koguchi/reconcile.py:123-138 | INV-1c: a path is flagged if and only if it is a non-temporary file below the workspace and the target of no pending and no committed record |
| Diagnosis.ExactDiagnosis | src/koguchi/reconcile.py:51-90 | a pass has exactly one finding about a pending write with an id and a target of its own; it says executed if and only if the rename took place, the target was there before, or the envelope names no filesystem tool; the confidence is the one the tool and the digest of what is there deserve |
| Diagnosis.NeverFlagged | src/koguchi/reconcile.py:50-101 | over any run no file renamed into place by a write with an id of its own is flagged |
| Diagnosis.LandedFlagged | src/koguchi/reconcile.py:50-138 | whatever ids are reused, a file renamed into place is flagged if and only if it is still there, not temporary, and the log has no open pending event and no last commit for it; and that takes another call with the same id |
| Diagnosis.LatestExact | src/koguchi/reconcile.py:93-96 | the dictionary of commits holds the last commit of each record and no other |
| Diagnosis.ForeignFlagged | src/koguchi/reconcile.py:124-138 | over any run every file that no call had as its target is flagged |
| Diagnosis.LastRenameStays | src/koguchi/proxy.py:202-215 | until a foreign change, a path holds the content of the last rename onto it, up to what later writes that use it as their temporary name did to it |
| Diagnosis.LastWriter | src/koguchi/reconcile.py:93-121 | after the last rename onto a path, each successful write to it is reported consistent if and only if what later temporary files left there can be read and has the digest of its content; otherwise as deleted or diverged, with the matching confidence |
| Diagnosis.LastWriterConsistent | src/koguchi/reconcile.py:93-121 | on a path that no later write uses as its temporary name, as any path without `.tmp.` in its name, a successful write is reported consistent if and only if its content has the digest of the last one |
| Counterexamples.ExecutedWithoutRename | src/koguchi/reconcile.py:59-74 | a run whose only write crashed before its side effect and is reported as executed |
| Counterexamples.OtherToolExecuted | src/koguchi/reconcile.py:78-84 | a run whose only write names the tool `todo.create`, crashed before its side effect, left no target behind and is reported as executed |
| Counterexamples.TemporaryNameLost | src/koguchi/proxy.py:202-210 | a run with fresh ids and no foreign change in which a write that succeeded is reported as diverged, because a later write used its target as temporary file |
| Counterexamples.MkdirFailureChanges | src/koguchi/proxy.py:403-423 | a call that fails, has created a directory, and records side effect none |
| Counterexamples.ReusedIdHides | src/koguchi/integrations/joujou.py:112-139 | a run of two calls under one action id after which a write that was carried out is not pending, and is flagged exactly when it wrote another file |
| FilesystemDiff.MatchesIgnore | src/koguchi/reconciliation/filesystem_diff.py:75-82 | the loop with early return decides whether some pattern matches |
| FilesystemDiff.MatchExact | src/koguchi/reconciliation/filesystem_diff.py:75-82 | a pattern matches a path that it begins or, behind a star, one that it ends |
| FilesystemDiff.UnreadableUnknown | src/koguchi/reconciliation/filesystem_diff.py:130-140 | an artifact that is there but cannot be read is unknown and makes the comparison inconclusive |
| FilesystemDiff.NoDigestUnchanged | src/koguchi/reconciliation/filesystem_diff.py:142-157 | an artifact without a recorded digest is unchanged as soon as it can be read |
| FilesystemDiff.HintGiven | src/koguchi/reconciliation/filesystem_diff.py:106-175 | every difference that needs a review has its hint in the report |
| FilesystemDiff.ReconcileFilesystemDiff | src/koguchi/reconciliation/filesystem_diff.py:85-210 | the two loops build the differences; missing paths and review hints are exactly those of the removed and of the non-benign differences, in order |
| FilesystemDiff.DiffExact | src/koguchi/reconciliation/filesystem_diff.py:106-175 | against a full-hash snapshot of tree A under normalised paths, the differences reported for tree B are exactly those the trees have, each with its kind and its digests |
| FilesystemDiff.DiffDistinct | src/koguchi/reconciliation/filesystem_diff.py:106-175 | no path is reported twice |
| FilesystemDiff.MatchedExact | src/koguchi/reconciliation/filesystem_diff.py:177-200 | the status is MATCHED if and only if the trees agree outside the ignored paths |
| FilesystemDiff.IgnoringMoreKeepsMatch | src/koguchi/reconciliation/filesystem_diff.py:75-82 | adding ignore patterns never destroys MATCHED |
| ServiceRuntime.ServiceRuntime.Execute | src/koguchi/service_runtime.py:94-163 | exactly one audit event per answered request, on every branch, and none when the backend raises |
| ServiceRuntime.ServedFields | src/koguchi/service_runtime.py:94-163 | answer and audit event field by field: verdict, reason, backend, error only with a refusal by the backend, output only without an error |
| ServiceRuntime.EventAgrees | src/koguchi/service_runtime.py:94-163 | there is an audit event exactly when the caller got an answer; it tells the verdict the caller got, and an error only together with a refusal |
| Scheduler.JobFields | src/koguchi/reconciliation_scheduler.py:91-127 | what a planned job is made of, with the reason why it is skipped |
| Scheduler.InMemoryReconciliationJobStore.Add | src/koguchi/reconciliation_scheduler.py:54-55 | a job replaces the one with its id in place, or goes to the end |
| Scheduler.ReconciliationScheduler.Plan | src/koguchi/reconciliation_scheduler.py:83-132 | creates one job object per event without a job, stores them one over the other, and touches no older job |
| Scheduler.ReconciliationScheduler.RunJob | src/koguchi/reconciliation_scheduler.py:142-179 | runs a pending job in place through running to its verdict; any other job, or a missing one, changes nothing |
| Scheduler.ReconciliationScheduler.RunPending | src/koguchi/reconciliation_scheduler.py:134-140 | runs the pending jobs in order, up to the first whose result the log refuses, and returns their results |
| Scheduler.ReconciliationScheduler.Summarize | src/koguchi/reconciliation_scheduler.py:214-220 | the counts are those of the statuses that occur and add up to the number of jobs |
| Scheduler.RunFirstLog | src/koguchi/reconciliation_scheduler.py:134-188 | as long as the log accepts them it gets exactly the results of the pending jobs, in order |
| SchedulerRuns.StatusesOnlyAdvance | src/koguchi/reconciliation_scheduler.py:134-188 | over any calls no job is left running, and every job keeps its place and source while its status only moves from pending to passed or failed |
| SchedulerRuns.ExactlyOnce | src/koguchi/reconciliation_scheduler.py:142-188 | over any calls the result log names a job at most once and only if it ran, and exactly once when the log accepts every entry |
| SchedulerRuns.SecondRunIdle | src/koguchi/reconciliation_scheduler.py:134-140 | after a complete `run_pending` a second one returns nothing and changes nothing |
| SchedulerRuns.PlanOnEmpty | src/koguchi/reconciliation_scheduler.py:83-132 | planning on an empty store leaves one job per distinct non-empty request id, ordered by first occurrence and made from the last one |
| SchedulerRuns.ReplanIdle | src/koguchi/reconciliation_scheduler.py:83-132 | planning the same events again, whatever was run in between, creates nothing and changes nothing |
| EndToEnd.RequestSettles | src/koguchi/reconciliation_scheduler.py:95-127 | the job of an audited request is pending when its caller was told it was allowed and skipped otherwise; verified, it passes unless the request named no tool |
| EndToEnd.JobsAgree | src/koguchi/service_runtime.py:94-191 | whatever the boundary and the backend answer to each request, and wherever the result log stops the run: one job per answered request, with its verdict or still pending; the skipped are the refused ones and the counts add up |
| EndToEnd.RunComplete | src/koguchi/reconciliation_scheduler.py:134-188 | the run gets to every job if and only if the result log accepts the verdict on every allowed request |
| EndToEnd.VerdictsAgree | src/koguchi/reconciliation_scheduler.py:134-140 | the results of a complete run are the verdicts on the allowed requests, in order |
| EndToEnd.ServeAll | src/koguchi/service_runtime.py:94-191 | serving a list of requests gives every caller its answer and leaves one audit record per answered request, in order |
| EndToEnd.AuditAndVerify | src/koguchi/service_runtime.py:94-191 | the runtime, its sink, the scheduler and its summary put together: the objects end in jobs, results and counts that agree with the answers the callers got |

## Left out

- SQLite, JSONL files, subprocess, urllib and pathlib themselves: tables are sequences, the file system is a map with an
  atomic rename, and every effect is an outcome chosen by the environment. An append is atomic.
- Path resolution and symlinks: `resolve` is a fixed function from strings to canonical paths, and an action id counts as
  one path component of the temporary name.
- Rendered messages: `detail` texts come from a parameter, chain findings and diff reports carry no summary or detail
  text.
- Lone surrogates, non-finite numbers and unserialisable objects in JSON; numbers are opaque tokens, and a confidence is
  such a token.
- Malformed JSON text in a stored payload: a tampered row may hold any JSON object. Pydantic's lax coercions when a payload
  is read back: a field of another JSON type is refused.
- The timestamp column of the store and `SQLiteDecisionStore.get`.
- Decisions.LinkageExact: recomputing decision hashes, which the code does not do, so no tamper evidence for that chain.
- Proxy.ToolProxy.HttpGet: an exception raised while reading an error response counts as one that escapes.
- Diagnosis.LastWriter: writes only through the proxy after the last rename; shell commands count as foreign changes.
- FilesystemDiff.ReconcileFilesystemDiff: how a path text leads to an entry of the tree is a parameter (`Locator`);
  `DiffExact` asks that the expected paths are normalised, so that each leads to itself.
- Scheduler.ReconciliationScheduler.RunJob: a scheduler without a result store is one whose log accepts everything.
- Audit records in the scheduler have typed optional fields; values of other JSON types are not modelled.
- Policy gate, runtime boundary, redaction, context capture, provider reconciliation, routing wrappers, dashboard, reports,
  CLI and the Rust crate: their verdicts are parameters here, and the rest would add only easy members.
- `_persist_results`, which nothing calls, and `ServiceRuntime.status`.
