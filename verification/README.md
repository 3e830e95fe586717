# Process kernel: models and proofs

This project models the logic at the centre of the Rust Process Kernel and proves what that logic is for. Each module
follows one component of the kernel. Code that changes things step by step is a method with a loop or a class over
fields, proved against a specification; the lemmas then state what the specification means.

- **Data runtime.** `Glob` (the wildcard matcher), `Csv` and `CsvTexts` (writer, quote-aware parser, and what it reads in
  any text), `Scan` (the filtered scan of a source set), `Organize` (destinations that must not collide) and `BatchMove`
  (moves that can be rolled back).
- **Chat tool loop.** `Transcript` and `TranscriptErrors` (the provider transcript protocol, its validator with the errors
  it reports, and request rendering), `ChatLoop` and `ChatLoopProperties` (the nested loop of a chat turn, with read
  budget, skipped results, early returns and failing writes) and `ChatThread` (any sequence of such turns).
- **Provider calls.** `Limiter` (the lock-file protocol as interleaved steps of any number of callers) and `Retry`
  (the attempt loop, saturating backoff and the call ledger).
- **Event-sourced state.** `ProcessTruth` (the log and what it says), `Approval`, `ApprovalMeaning` and `ApprovalRuns`
  (previews, tokens, what each operation answers, whole runs), `ApprovalScope` (how far a token reaches), `ClosureGate`
  (the completion gate), `ApprovalGate` (where gate and approval runtime, which read one log in different ways, agree) and
  `Disclosure` (requests, approvals and scans of sensitive fields).
- **Incremental parsers.** `Stream` (a streamed model response) and `Zip` (the byte walk over store-method archives).

`Text` holds the string operations they share, each with what it means (`Text.TrimMeaning`, `Text.JoinUndoesSplit`,
`Text.SplitUndoesJoin`, `Text.DecimalMeaning`), and `Saturating` the fixed-width arithmetic. `dafny verify dfyconfig.toml`
checks the whole project.

## Where the code does not do what one might expect

Each of these is stated as a lemma with a concrete or general witness, and the exact condition is proved beside it.

- The pattern `**/*` accepts paths without a slash (`Glob.SpecialCaseDeviation`).
- Organize destinations are distinct for up to 9,999 files, one more than the number of candidates, and not for 10,000
  (`Organize.PlanIsDistinct`, `Organize.BoundIsExact`, `Organize.DistinctIffNoneFallsThrough`).
- A CSV file that ends, without a final line ending, in a row of one empty cell loses that row
  (`Csv.ParseWithoutLastEol`).
- A move onto an existing destination, or onto itself, cannot be rolled back (`BatchMove.RollbackIff`).
- Breaking a stale provider lock is a check followed by a removal, and two waiting callers can both get a permit
  (`Limiter.RacyRunHasTwoPermits`); at most one permit can be live throughout a run exactly when its removals hit only
  dead locks (`Limiter.AtMostOneLiveIff`).
- A chat turn that a control call ends in the middle of its batch leaves unanswered calls
  (`ChatLoopProperties.MidBatchAnswerBreaks`); a reply that repeats a call id makes the recorder refuse a result, and the
  turn fails with an invalid transcript although nothing else failed (`ChatLoopProperties.RefusedTurnBreaks`). Which
  replies leave a valid transcript is exact (`ChatLoopProperties.EndedTurnValidIff`, `ChatLoopProperties.TurnValidIff`),
  and no later turn repairs one that is not: until it is compacted, each request that sends it is invalid
  (`ChatThread.BrokenThreadStaysBroken`).
- With a zero initial wait the backoff ignores the jitter (`Retry.BackoffExactIff`).
- Preview id and transaction id come from two clock readings. When two previews share only the preview id, approving
  one makes the gate report nothing pending while the runtime would still approve the other
  (`ApprovalGate.SharedPreviewIdHidesAnOpenPreview`); when they share both ids, gate and runtime lose the first together
  (`ApprovalGate.SharedIdsHideAPreview`). Gate and runtime agree on a log exactly when `ApprovalGate.RunAgreesIff` says,
  and throughout a run exactly when each step meets the condition of `ApprovalGate.AgreeThroughoutIff`.
- A token validates each capability of its preview on the paths of all operations of that preview, also on those of
  another operation (`ApprovalScope.CrossingExample`), unless each capability covers every path of the preview anyway
  (`ApprovalScope.PairsRespectedIff`); and the hash check never refuses (`ApprovalRuns.ValidatesIff`).
- Using a token for a verifying capability clears that verifier's failure about an unnamed artifact
  (`ApprovalGate.TokenUseClearsUnknownArtifact`, with the exact condition).
- Rejecting a disclosure request before it exists has no effect (`Disclosure.EarlyRejectionDoesNotCount`): only what
  follows a request counts (`Disclosure.PendingIffUnresolvedAfter`).
- The scan blames the depth limit also when the skipped directories are empty (`Scan.DepthBlamedForNothing`); the blame
  is right exactly when one of them holds a file (`Scan.DepthRightlyBlamedIff`).

## Modelling choices

Ids that the kernel derives from the clock, clock readings and hashes are parameters; hash functions are arbitrary
functions. Where a property needs fresh ids, the lemma says so. Calls whose code is in other components are parameters
too: what the model answers, how a path resolves, which writes succeed. Fixed-width counters and saturating arithmetic
are written out. Strings are sequences of characters; trimming uses the Unicode White_Space property, lower-casing is
ASCII, as in the code. A function value such as `hard`, `refusal`, `invalid` or `judge` stands for a classification that
is defined in the same module (`IsHardArtifactIssue`, `Refusal`, ...) or that belongs to another component. `seal` gives the
scopes and hash that a token takes over from its preview (`Approval.SealOf`); the run lemmas hold for every such function,
for runs whose previews have a scope, and `ApprovalRuns.CreatedIsApprovable` shows that those the runtime creates do.

## Model

| member | source | states |
|---|---|---|
| `Glob.GlobLikeMatch` | process_kernel/src/data_runtime.rs:1321-1355 | the matcher answers true exactly when the path is accepted: it matches by substituting a string for each wildcard, contains a pattern without wildcards, or the pattern is the special case `**/*` |
| `Glob.GlobIsPlaceable` | process_kernel/src/data_runtime.rs:1321-1355 | the declarative relation (fills exist that turn the pattern into the path) holds exactly when the pieces can be placed left to right, the first at the start and the last at the end |
| `Glob.GreedyStep` | process_kernel/src/data_runtime.rs:1333-1350 | taking the leftmost occurrence of a piece never loses a match, and the last piece may be moved to the end: greedy search is sound and complete |
| `Glob.SpecialCaseDeviation` | process_kernel/src/data_runtime.rs:1321-1332 | `**/*` is accepted for every path, although substitution only gives paths that contain a slash: the exact deviation of the special case |
| `Csv.DatasetToCsv` | process_kernel/src/data_runtime.rs:1357-1395 | the exporter writes the header row and one escaped row per record, each ended by LF |
| `Csv.ParseCsvRecords` | process_kernel/src/data_runtime.rs:1442-1477 | the quote-aware loop computes the parser function that the lemmas below characterise, error included |
| `Csv.ParseUndoesWrite` | process_kernel/src/data_runtime.rs:1434-1477 | parsing the text of any table of non-empty rows gives the table back, for all cell strings (commas, quotes, CR, LF), with LF or CRLF line ends |
| `Csv.ExportParses` | process_kernel/src/data_runtime.rs:1369-1395 | parsing an export gives exactly the header row and one row of cells per record |
| `Csv.ParseFailsIffOddQuotes` | process_kernel/src/data_runtime.rs:1442-1477 | the parser rejects a text exactly when it contains an odd number of quotes |
| `CsvTexts.ParseMeaning` | process_kernel/src/data_runtime.rs:1442-1477 | in any text of lines of cells, each cell is read by itself: ordinary characters stand for themselves, carriage returns outside quotes vanish, a quoted stretch stands for its content wherever in the cell it is; a last line of one empty cell gives no row |
| `CsvTexts.EveryAcceptedText` | process_kernel/src/data_runtime.rs:1442-1477 | every text with an even number of quotes is the text of such lines: together with the rule for odd quotes this says what the parser answers to every text |
| `Csv.ParseWithoutLastEol` | process_kernel/src/data_runtime.rs:1472-1475 | a table's text without its last line ending gives all rows, except that a last row of one empty cell is lost |
| `Csv.EscapeMeaning` | process_kernel/src/data_runtime.rs:1434-1440 | a cell is quoted exactly when it contains a comma, a quote, LF or CR |
| `Csv.TableMeaning` | process_kernel/src/data_runtime.rs:1369-1395 | the header row is the schema, or the one column value; each record gives one row, with an empty cell for an absent column |
| `Csv.ReadRowsMeaning` | process_kernel/src/data_runtime.rs:858-903 | reading rows back: which row is the header, the column names, at least one and at most max_rows records, the last column of a name winning, empty values for short rows |
| `Csv.ReadBack` | process_kernel/src/data_runtime.rs:847-936 | reading an export back gives the same records exactly when no row is cut off by the row limit and the dataset is portable (every record has every column, and column names are non-empty and trimmed) |
| `Organize.DisambiguateDestination` | process_kernel/src/data_runtime.rs:1065-1090 | the bounded search returns the first unused of the 9,998 candidates, or the taken destination itself |
| `Organize.PlanOrganize` | process_kernel/src/data_runtime.rs:394-417 | the planner gives each file, in order, its base destination or the first free candidate |
| `Organize.PlanMeaning` | process_kernel/src/data_runtime.rs:394-417 | each file moves to root/group/extension/name, unless an earlier operation of the plan has that destination; then to the first of its numbered candidates that none has, or to the taken destination when all are taken |
| `Organize.CandidateMeaning` | process_kernel/src/data_runtime.rs:1065-1088 | a candidate of parent/stem.extension is parent/stem_index.extension, and a final dot without an extension is lost; a name without a dot past its start is just numbered (`Organize.PlainCandidateMeaning`) |
| `Organize.CandidatesDistinct` | process_kernel/src/data_runtime.rs:1071-1088 | a destination and its 9,998 candidates are 9,999 different strings |
| `Organize.PlanIsDistinct` | process_kernel/src/data_runtime.rs:394-417 | for up to 9,999 files of any names, all destinations of a plan are pairwise distinct (pigeonhole over the candidates) |
| `Organize.BoundIsExact` | process_kernel/src/data_runtime.rs:1065-1090 | 10,000 files with one base destination always collide: the bound cannot be raised |
| `Organize.DistinctIffNoneFallsThrough` | process_kernel/src/data_runtime.rs:394-417 | for any number of files, destinations are distinct exactly when no file finds its destination and all candidates taken |
| `BatchMove.Workspace.ApplyTx` | process_kernel/src/data_runtime.rs:468-498 | the transaction leaves the files and returns the recorded operations (or the error) that the step-by-step specification gives: missing sources skipped, an existing destination removed first |
| `BatchMove.StepMeaning` | process_kernel/src/data_runtime.rs:474-490 | an executed move puts the source's contents under the destination, whatever was there, frees the source and touches no other path; a missing source is skipped, and a move onto itself loses the file and fails |
| `BatchMove.ApplyConcat` | process_kernel/src/data_runtime.rs:473-490 | a transaction is its operations one after the other: a list in two parts is the first part and, if it succeeds, the second on what it leaves |
| `BatchMove.OrganizePlaces` | process_kernel/src/data_runtime.rs:394-490 | applying the plan for up to 9,999 distinct files with fresh destinations puts each file's contents under its own destination and frees its old path |
| `BatchMove.OrganizeKeepsOthers` | process_kernel/src/data_runtime.rs:473-490 | a path that is neither source nor destination of a plan keeps its contents, or stays free |
| `BatchMove.RollbackRestores` | process_kernel/src/data_runtime.rs:468-498 | when no executed step finds its destination taken, contents are preserved and replaying the recorded operations in reverse restores the file map exactly, chained moves and skipped sources included |
| `BatchMove.RollbackIff` | process_kernel/src/data_runtime.rs:589-619 | a transaction succeeds and its reverse replay restores every file exactly when no executed step finds its destination taken |
| `BatchMove.ApplyLosesIfOverwrite` | process_kernel/src/data_runtime.rs:474-486 | a transaction never adds a file, and one that succeeds but overwrites ends with fewer files |
| `BatchMove.OrganizeIsReversible` | process_kernel/src/data_runtime.rs:394-498 | the plan for up to 9,999 files whose destinations do not exist yet can be applied and rolled back exactly: planner and transaction together |
| `Scan.Judge` | process_kernel/src/data_runtime.rs:1226-1254 | the filters in their order: exclude globs, extensions, include globs, each empty include list letting all pass |
| `Scan.JudgedMeaning` | process_kernel/src/data_runtime.rs:1226-1254 | each of the four verdicts, exactly when: by the globs that accept the path and the extensions listed, exclude globs before extensions before include globs |
| `Scan.VerdictMeaning` | process_kernel/src/data_runtime.rs:1220-1238 | the filters see the names joined by slashes and the last name's extension with its dot, in lower case; a name without a dot past its start has no extension (`Scan.VerdictWithoutExtension`) |
| `Scan.CollectSourceFiles` | process_kernel/src/data_runtime.rs:1181-1271 | the recursive scan adds, for exactly the files of the tree within the depth limit, the kept files in visiting order and one count per verdict; a directory below the limit adds one skip |
| `Scan.FilesMeaning` | process_kernel/src/data_runtime.rs:1192-1220 | the files seen are exactly those that can be located through at most max_depth directories without passing a runtime entry |
| `Scan.VisitedInOrder` | process_kernel/src/data_runtime.rs:1192-1219 | entries are visited in their order, files and skipped directories of the first ones before those of the later ones; what a single entry gives is said by `Scan.OneFile` and `Scan.OneDirectory` |
| `Scan.VerdictsAddUp` | process_kernel/src/data_runtime.rs:1226-1255 | every file seen has one verdict: kept and the three exclusion counts add up to the scanned count; the kept files stand in the order seen (`Scan.WithConcat`, `Scan.WithOne`) |
| `Scan.ReasonMeaning` | process_kernel/src/data_runtime.rs:1273-1302 | the reason computed from the counters fits the files: none exactly when something was kept, a filter named exactly when every file seen was refused by it |
| `Scan.CreateSourceSet` | process_kernel/src/data_runtime.rs:117-140 | files, counters and reason of a whole scan, tied to the declarative set of located files |
| `Scan.SkippedMeaning` | process_kernel/src/data_runtime.rs:1192-1195 | a skip is counted exactly when a directory lies just below the depth limit |
| `Scan.DepthBlamedForNothing` | process_kernel/src/data_runtime.rs:1279-1284 | the depth limit is blamed for a tree that holds no file at any depth: the skipped directory may be empty |
| `Scan.DepthRightlyBlamedIff` | process_kernel/src/data_runtime.rs:1192-1302 | when no file is seen, a larger limit would reach one exactly when a directory just below the limit holds one, at whatever depth |
| `Transcript.ValidateDeepseekNativeMessages` | process_kernel/src/context_compaction.rs:65-131 | the validator reports valid exactly for the transcripts of the declarative protocol, no error exactly when only answers are missing, the errors message by message, and the pending ids |
| `TranscriptErrors.ErrorsIff` | process_kernel/src/context_compaction.rs:71-121 | each of the eight kinds of error is reported for a message, position or id exactly when the messages before it and its own fields call for it |
| `TranscriptErrors.PendingMeaning` | process_kernel/src/context_compaction.rs:123-130 | the pending ids are those that are not blank, called, and not answered after their call |
| `Transcript.ProtocolIffClosed` | process_kernel/src/context_compaction.rs:68-130 | the declarative protocol (known roles, unique non-blank call ids, every answer after its call, every call answered once) equals the stepwise one the loop keeps |
| `Transcript.ProtocolConcat` | process_kernel/src/context_compaction.rs:65-131 | the concatenation of two valid transcripts is valid exactly when their call ids are disjoint |
| `Transcript.BatchKeepsClosed` | process_kernel/src/context_compaction.rs:68-130 | a batch with its first results keeps a closed transcript closed exactly when its ids are distinct, non-blank and new and every call has its result |
| `Transcript.OwnCallsNeverRepair` | process_kernel/src/context_compaction.rs:68-130 | appending messages that answer only their own calls never makes an invalid transcript valid |
| `Transcript.RenderDeepseekMessages` | process_kernel/src/deepseek_provider.rs:559-604 | the request is system, current and transcript when the transcript has no user message; else system, transcript and, unless it ends with a tool result and the message is not required, the current message |
| `Transcript.RenderedValid` | process_kernel/src/deepseek_provider.rs:559-604 | a rendered request is protocol-valid exactly when the transcript is |
| `Transcript.RenderedUsers` | process_kernel/src/deepseek_provider.rs:559-604 | which user messages a rendered request carries, in order |
| `ChatLoop.ExecutionStatus` | process_kernel/src/chat_runtime.rs:1233-1300 | an executed call continues exactly when it is registered and read-only, answers or clarifies exactly for those two control calls, and else needs a task; it is never Blocked or Failed, so that arm of the loop is dead |
| `ChatLoop.BatchOutcomeMeaning` | process_kernel/src/chat_runtime.rs:685-872 | a batch stops at its first call over the read budget, all totals before within it, or at its first terminal status within the budget; all calls before it continue and the counters are the saturating sums |
| `ChatLoop.TurnOutcomeMeaning` | process_kernel/src/chat_runtime.rs:524-874 | how a turn can end (failed, invalid or final reply, control call, out of subturns) and which replies it processed completely before |
| `ChatLoop.BatchInTurn` | process_kernel/src/chat_runtime.rs:685-872 | the same batch in the plain sums of the whole turn: it goes on while the turn's total stays within the read budget and the calls continue, and the counters are those sums cut off at 64 bits |
| `ChatLoop.PendingIdsMeaning` | process_kernel/src/provider_transcript.rs:1111-1183 | an id is pending for the recorder exactly when some message calls it and none after that one answers it |
| `ChatLoop.RecordableIff` | process_kernel/src/provider_transcript.rs:412-470 | the results of a batch can all be recorded exactly when its ids are distinct and pending |
| `ChatLoop.ChatTurn.AppendSkippedResultsFrom` | process_kernel/src/chat_runtime.rs:935-992 | one skipped result per remaining call is appended; after a failed write or a refused result those of the calls before it are, no id twice, and only an id that is not pending is refused |
| `ChatLoop.ChatTurn.ExecuteCall` | process_kernel/src/chat_runtime.rs:995-1231 | one result for the executed call, and the read counters after it in saturating arithmetic; a failure leaves the transcript as it was or with that result |
| `ChatLoop.ChatTurn.ExecuteBatch` | process_kernel/src/chat_runtime.rs:685-872 | the results recorded are always those of the first calls, no id twice: all of them, those up to a terminal call, or those before a failed write or a refused result |
| `ChatLoop.ChatTurn.AnswerBatch` | process_kernel/src/chat_runtime.rs:627-685 | a batch over the total limit is skipped as a whole, with a result for every call unless one fails |
| `ChatLoop.ChatTurn.RunProviderLoop` | process_kernel/src/chat_runtime.rs:497-904 | how the turn ends, every request sent, the transcript left behind and the total tool-call limit; the calls executed of each reply and the read counters follow the turn's own totals across all replies, reply by reply; also when the turn fails the transcript is the one before the reply at hand, with what was kept of it, and it fails only if a write does or the next call repeats the id of one with a result; in all other turns no id has two results; what is kept accounts for every write made, so nothing written is lost |
| `ChatLoopProperties.BeforeMeaning` | process_kernel/src/chat_runtime.rs:524-874 | before each subturn the transcript is the initial one, the user message, and each earlier reply followed by one result per call |
| `ChatLoopProperties.BatchMeaning` | process_kernel/src/chat_runtime.rs:627-872 | a batch in the transcript, message by message: the assistant's content and call ids, then for each call in order its own result if it was executed and else a skipped one |
| `ChatLoopProperties.CourseUnique` | process_kernel/src/chat_runtime.rs:497-904 | the replies and the limits fix the course of a turn: which replies it completes, how many calls it executes of each, and how it ends |
| `ChatLoopProperties.BatchesClosed` | process_kernel/src/chat_runtime.rs:524-874 | from a closed transcript, completely processed replies leave it closed exactly as long as the call ids are fresh, on the executed, skipped and over-limit paths alike |
| `ChatLoopProperties.RequestsValid` | process_kernel/src/chat_runtime.rs:524-594 | each request a turn sends, from any transcript, is protocol-valid exactly when the turn began with a valid one and the ids of the batches answered so far are fresh (or no transcript is sent) |
| `ChatLoopProperties.RequestsCarryUserOnce` | process_kernel/src/model_runtime.rs:694-717 | each request a turn sends carries this turn's user message exactly once: appended at subturn 0, carried by the transcript afterwards |
| `ChatLoopProperties.TurnValidIff` | process_kernel/src/chat_runtime.rs:497-904 | however a turn ends or fails, it leaves a valid transcript exactly when it began with one, the ids of the recorded replies are fresh, and the last of them has a result for every call |
| `ChatLoopProperties.EndedTurnValidIff` | process_kernel/src/chat_runtime.rs:497-904 | the same in terms of what the model answers: no call comes after a control call in the reply that ended the turn, and an invalid reply calls nothing |
| `ChatLoopProperties.MidBatchAnswerBreaks` | process_kernel/src/chat_runtime.rs:815-855 | one reply that answers and then asks to read, with fresh ids and within all limits: the turn ends at the answer and leaves an invalid transcript |
| `ChatLoopProperties.RefusedTurnBreaks` | process_kernel/src/provider_transcript.rs:412-470 | a turn that fails although no write failed leaves an invalid transcript |
| `ChatLoopProperties.TurnNeverRepairs` | process_kernel/src/chat_runtime.rs:497-904 | whatever the model answers, however the turn ends and whatever write fails, a turn never makes an invalid transcript valid |
| `ChatThread.BrokenThreadStaysBroken` | process_kernel/src/chat_runtime.rs:497-904 | over any sequence of turns, failed ones included: once the transcript is invalid, every later request that sends it is invalid, unless it is compacted |
| `Limiter.StepKeepsSafety` | process_kernel/src/model_runtime.rs:1655-1786 | every step of the lock protocol keeps exclusive ownership and the minimum interval, if a stale-lock removal does not hit a live lock |
| `Limiter.SafeIfOnlyDeadLocksRemoved` | process_kernel/src/model_runtime.rs:1655-1786 | in every such run, for any number of callers and with crashing holders, at most one permit is live and grants are at least the interval apart |
| `Limiter.ExclusiveThroughoutIff` | process_kernel/src/model_runtime.rs:1766-1780 | live permits own the lock file throughout a run exactly when its stale-lock removals hit only dead locks |
| `Limiter.RemovalAdmitsSecond` | process_kernel/src/model_runtime.rs:1766-1786 | after the removal of a live lock the remover can create its own at once, and then two permits are live |
| `Limiter.AtMostOneLiveIff` | process_kernel/src/model_runtime.rs:1655-1786 | at no point of a run are two permits live, or one creation of the lock file away from it, exactly when its removals hit only dead locks |
| `Limiter.SafeIfAtomicAndPunctual` | process_kernel/src/model_runtime.rs:1655-1786 | atomic check-and-remove and holders that release before their lock goes stale suffice for safety |
| `Limiter.RacyRunHasTwoPermits` | process_kernel/src/model_runtime.rs:1766-1780 | a run of the code as it is, where check and removal are two steps, that ends with two live permits |
| `Limiter.AcquireMeaning` | process_kernel/src/model_runtime.rs:1655-1764 | a caller that finds no lock creates it and is granted once it has waited just until the time in the state file, never earlier; the grant is recorded and the next one allowed the interval later |
| `Limiter.StaleMeaning` | process_kernel/src/model_runtime.rs:1766-1780 | a lock file at least as old as the limit can be removed by a waiting caller; a younger one is left alone |
| `Limiter.LeavingMeaning` | process_kernel/src/model_runtime.rs:1782-1786 | releasing or giving up removes the lock file, crashing or timing out leaves it, and none of them records a grant or touches another caller |
| `Retry.MaxAttempts` | process_kernel/src/model_retry.rs:16-24 | one attempt more than retries, at least one, in 32 bits |
| `Retry.BackoffExactIff` | process_kernel/src/model_retry.rs:30-39 | saturating backoff equals min(initial*2^min(k-1,20), max) plus jitter exactly when that sum fits in 64 bits and, for a zero initial wait, there is no jitter; otherwise it is the 64-bit maximum, or zero |
| `Retry.WaitsMeaning` | process_kernel/src/model_runtime.rs:805-822 | after attempt k a call waits the exact k-th backoff at the clock reading taken then, cut off at 64 bits |
| `Retry.BackoffGrows` | process_kernel/src/model_retry.rs:30-54 | at one clock reading waits never shrink from attempt to attempt and stay within maximum plus jitter |
| `Retry.LastAttemptMeaning` | process_kernel/src/model_runtime.rs:762-823 | the attempt that ends the loop is the first that succeeds, fails with an error that may not be retried, or is the last one allowed; every attempt before it failed with an error that may |
| `Retry.TraceIsGrammatical` | process_kernel/src/model_runtime.rs:762-823 | the events of a call are (started failed backoff)* started (succeeded or failed for good), numbered without a gap |
| `Retry.TraceMeaning` | process_kernel/src/model_runtime.rs:762-823 | the events name each attempt, its own error and whether it is retried, the wait after it, and how the last one ended |
| `Retry.BackoffLeadsToAttempt` | process_kernel/src/model_runtime.rs:809-821 | every backoff is followed by the start of the next attempt |
| `Retry.ModelRuntime.Attempt` | process_kernel/src/model_runtime.rs:758-823 | the loop appends exactly that trace and ends with the answer of the last attempt |
| `Retry.ModelRuntime.LastModelReceipt` | process_kernel/src/model_runtime.rs:1586-1596 | the last ledger entry of the call, or none when no entry is of the call |
| `Retry.ModelRuntime.Invoke` | process_kernel/src/model_runtime.rs:758-868 | a call makes at most max_retries+1 attempts and returns the receipt it appended to the ledger, with the fields it must have; earlier entries are kept when the file can be read |
| `Approval.NormalizeScope` | process_kernel/src/approval_runtime.rs:534-557 | the kept scope is the set of non-empty values, each once; a wildcard or nothing left is the respective error |
| `ApprovalMeaning.NormalizedIff` | process_kernel/src/approval_runtime.rs:417-442 | normalising succeeds when every operation names a capability and has a path, none a wildcard, and else fails with the error of the first that does not |
| `ApprovalMeaning.NormalizedMeaning` | process_kernel/src/approval_runtime.rs:427-441 | each operation keeps its place, its trimmed capability, and each of its cleaned non-empty paths once |
| `ApprovalMeaning.KeptInOrder` | process_kernel/src/approval_runtime.rs:534-557 | the values kept stand in the order of their first occurrences |
| `Approval.ApprovalRuntime.CreatePreviewTx` | process_kernel/src/approval_runtime.rs:57-117 | creating appends two events for the preview with the given ids and the normalised operations, or fails without appending |
| `Approval.ApprovalRuntime.IssueTokenForPreviewSelection` | process_kernel/src/approval_runtime.rs:136-241 | issuing approves the latest selected open preview and records approval and token, or fails without appending |
| `Approval.ApprovalRuntime.ValidateToken` | process_kernel/src/approval_runtime.rs:243-318 | the backward walk answers true exactly when the validity predicate holds on the log |
| `Approval.ApprovalRuntime.MarkTokenUsed` | process_kernel/src/approval_runtime.rs:320-395 | which events using a token appends, with and without a transaction |
| `ApprovalMeaning.IssueMeaning` | process_kernel/src/approval_runtime.rs:136-241 | read off the events: issuing takes the last created preview that the trimmed id selects and no event approves, issues for or closes; it records the approval and a token with the preview's ids, scopes and hash that lives for a day, or refuses an empty scope; without such a preview nothing is issued (`ApprovalMeaning.NothingToIssue`) |
| `ApprovalMeaning.ValidatesMeaning` | process_kernel/src/approval_runtime.rs:243-318 | read off the events: the last issue of a token decides, and it validates exactly when no event uses it, it has not expired, a preview of its transaction has its hash, and its scopes cover the capability and every target; a token never issued validates for nothing (`ApprovalMeaning.UnknownNeverValidates`) |
| `ApprovalMeaning.UnderScopeMeaning` | process_kernel/src/approval_runtime.rs:295-302 | a scope covers exactly itself and what begins with it and a slash, its own trailing slashes not counted |
| `ApprovalMeaning.UseMeaning` | process_kernel/src/approval_runtime.rs:320-395 | using a token records consumption and use, with application and closing of its transaction in between and after when it has one; one never issued has none (`ApprovalMeaning.UnknownUse`) |
| `ApprovalRuns.IssuedTxsDistinct` | process_kernel/src/approval_runtime.rs:136-241 | in every run, fresh ids or not, issued tokens have pairwise distinct transactions |
| `ApprovalRuns.RunIsLinked` | process_kernel/src/approval_runtime.rs:57-395 | in every run, fresh ids or not, each token belongs to a created preview, and what is decided or closed is carried by a token |
| `ApprovalRuns.UsedTokenNeverValidates` | process_kernel/src/approval_runtime.rs:320-405 | after a token has been used it validates for nothing, at no time, in any continuation of the log |
| `ApprovalRuns.RunRefinesMachine` | process_kernel/src/approval_runtime.rs:57-395 | in every run with fresh ids the log stands for a machine that only keeps the waiting previews and the live tokens |
| `ApprovalRuns.ValidatesIff` | process_kernel/src/approval_runtime.rs:243-318 | in every run a token validates exactly when it is not blank, used or expired, was issued for a created preview, and that preview has the capability and a path equal to or above each target at a slash boundary |
| `ApprovalRuns.CreatedIsApprovable` | process_kernel/src/approval_runtime.rs:197-212 | a created preview always has a scope: approving it cannot fail on an empty one |
| `ApprovalScope.CapabilitiesCross` | process_kernel/src/approval_runtime.rs:267-318 | the token for a preview is in scope for the capability of any of its operations on a path of any other |
| `ApprovalScope.PairsRespectedIff` | process_kernel/src/approval_runtime.rs:267-318 | whatever capability and target a preview allows, one of its operations allows, exactly when for all operations a and b each path of b is covered by an operation with the capability of a: a condition on the preview, before a token is issued |
| `ApprovalScope.CrossingExample` | process_kernel/src/approval_runtime.rs:267-318 | the token for a preview of reading a and deleting b is in scope for deleting a, which no operation of it allows |
| `ApprovalScope.UnderScopeTransitive` | process_kernel/src/approval_runtime.rs:295-318 | what lies under a path that lies under a scope lies under the scope, slash boundaries and trailing slashes included |
| `ClosureGate.KeyInjective` | process_kernel/src/closure_gate.rs:562-571 | receipts of different verifiers or about different artifacts never share a key |
| `ClosureGate.VerificationFailures` | process_kernel/src/closure_gate.rs:526-577 | the loop keeps the last receipt under each key and then those that failed or were blocked |
| `ClosureGate.LatestMeaning` | process_kernel/src/closure_gate.rs:526-577 | the map holds under each verifier and artifact the last receipt about them |
| `ClosureGate.LaterReceiptReplacesOwnKey` | process_kernel/src/closure_gate.rs:562-576 | a later receipt changes exactly its own key: a failure sets it, anything else clears it |
| `ClosureGate.HardFailuresMeaning` | process_kernel/src/closure_gate.rs:448-462 | nothing is reported exactly when no last receipt is a hard failure |
| `ClosureGate.HardIssueMeaning` | process_kernel/src/closure_gate.rs:589-599 | an issue is hard exactly when some stretch of it is one of the eight phrases, whatever the case |
| `ClosureGate.PayloadMeaning` | process_kernel/src/closure_gate.rs:939-948 | which events carry a receipt: blocked capabilities, model calls and audits their own, token use one that names the capability only and never fails, the other approval events none |
| `ClosureGate.LatestModelArtifactAudits` | process_kernel/src/closure_gate.rs:843-856 | the last audit of each artifact path |
| `ClosureGate.UnresolvedRequiredFailures` | process_kernel/src/closure_gate.rs:681-717 | the loop returns the required failures at or after the last success, in order |
| `ClosureGate.UnresolvedMeaning` | process_kernel/src/closure_gate.rs:681-717 | a required failure is reported exactly when no model call succeeds after it |
| `ClosureGate.PendingMutations` | process_kernel/src/closure_gate.rs:624-679 | blocked capabilities followed by the tokens that are not consumed or whose transaction is not closed |
| `ClosureGate.PolicyBlockIsFinal` | process_kernel/src/closure_gate.rs:624-642 | a capability blocked by the mutation policy stays pending, and the process can never complete again, whatever is appended to the log |
| `ClosureGate.MissingArtifacts` | process_kernel/src/closure_gate.rs:374-397 | one message per reference that has one, in order; nothing is missing exactly when every reference resolves to something readable |
| `ClosureGate.MissingMeaning` | process_kernel/src/closure_gate.rs:374-397 | a message is listed exactly when it reports some claimed reference: as given when it is blank or internal, trimmed when nothing readable is there, with the error when it does not resolve; never for a readable one |
| `ClosureGate.InternalRefMeaning` | process_kernel/src/closure_gate.rs:399-407 | a reference is internal exactly when it begins, without blanks around it and in whatever case, with one of the six schemes |
| `ClosureGate.CheckClosureGate` | process_kernel/src/closure_gate.rs:98-126 | can_complete equals a predicate that names each condition (every claimed artifact readable, every verifier and audit passing, previews settled, nothing blocked by policy, tokens used and closed, required failures resolved); each list is fixed by the findings it reports, and there is one hard block per finding; coverage, audit and typed gaps do not enter |
| `ClosureGate.CheckClosureGateForArtifacts` | process_kernel/src/closure_gate.rs:399-407 | the same with the gate's own internal-reference and hard-issue tests |
| `ClosureGate.ReportedChecks` | process_kernel/src/closure_gate.rs:448-526 | a check is reported exactly when the last receipt of that verifier about that artifact does not pass, or the last audit of that artifact has a hard issue |
| `ClosureGate.ReportedChanges` | process_kernel/src/closure_gate.rs:601-679 | the pending mutations and approvals, finding by finding: capabilities blocked by policy, tokens not used or with an open transaction, previews neither carried by a token nor closed |
| `ClosureGate.BlocksMeaning` | process_kernel/src/closure_gate.rs:159-213 | one hard block per finding, kind after kind, each with its own finding |
| `ApprovalGate.GateReadsTheMachine` | process_kernel/src/closure_gate.rs:601-679 | in every run with fresh ids the gate's pending approvals are the previews created and never approved, and its unfinished tokens those issued and never used: gate and runtime agree on the log |
| `ApprovalGate.RunAgreesIff` | process_kernel/src/closure_gate.rs:601-622 | in every run, whatever its ids: what the gate finds pending is what the runtime can still approve, exactly when for each created preview some token carries its id if and only if no undecided preview has that id |
| `ApprovalGate.AgreeIfIdsMatch` | process_kernel/src/closure_gate.rs:601-622 | they agree when a created preview and an issued token share both their ids or neither |
| `ApprovalGate.AgreeThroughoutIff` | process_kernel/src/closure_gate.rs:601-622 | in every run, gate and runtime agree after each step exactly when each step meets a condition on the log before it: a new preview must not reopen an id that a token carries, nor bring a new id under a decided transaction, and an approval must leave no other preview of its id open and no other id stranded |
| `ApprovalGate.UnfinishedAreLiveIff` | process_kernel/src/closure_gate.rs:624-679 | on any log, the tokens the gate finds unfinished are the unused ones exactly when every used one with an id has closed its transaction and every unused one has an id |
| `ApprovalGate.SharedPreviewIdHidesAnOpenPreview` | process_kernel/src/approval_runtime.rs:67-68 | two previews with one preview id and different transactions, the second approved: the gate finds nothing pending while the runtime would approve the first next |
| `ApprovalGate.SharedIdsHideAPreview` | process_kernel/src/approval_runtime.rs:67-68 | two previews sharing both ids, the second approved: neither gate nor runtime finds the first any more |
| `ApprovalGate.TokenUseClearsUnknownArtifact` | process_kernel/src/closure_gate.rs:939-948 | using a token clears its capability's failure about an unnamed artifact and no other, because such events carry a capability id: the failures stay as they are exactly when the capability verifies nothing or has no such failure |
| `Disclosure.ClientEnvRuntime.RequestSensitiveDisclosure` | process_kernel/src/client_env_runtime.rs:272-320 | the request is for a non-empty set: exactly the fields some name stands for, or the network fields when no name does; afterwards it is pending until it expires, whatever the log said about its id before |
| `Disclosure.ClientEnvRuntime.PendingDisclosureRequest` | process_kernel/src/client_env_runtime.rs:807-862 | the last request with the id, unless it is expired or resolved after it was made |
| `Disclosure.PendingIffUnresolvedAfter` | process_kernel/src/client_env_runtime.rs:807-862 | in any log, an unexpired request is pending exactly when nothing after its last occurrence approves or rejects it: what came before does not count |
| `Disclosure.ClientEnvRuntime.ApproveSensitiveDisclosure` | process_kernel/src/client_env_runtime.rs:322-377 | approval of a pending request for some of its fields, or the error in the order of the checks; only an approval is appended |
| `Disclosure.ApproveMeaning` | process_kernel/src/client_env_runtime.rs:322-377 | the verdict on the last request with the id, read off the log: blank id, expired, answered since, no allowed field, fields out of scope, each with its own error and in this order; else an approval of exactly the allowed fields for ten minutes; without a request the id is not found (`Disclosure.UnaskedIsNotFound`) |
| `Disclosure.ClientEnvRuntime.RejectSensitiveDisclosure` | process_kernel/src/client_env_runtime.rs:379-395 | a rejection is appended whatever the state of the request, and nothing is pending under its id at any time then |
| `Disclosure.ApprovalAnswersRequest` | process_kernel/src/client_env_runtime.rs:322-377 | in every run, each approval follows a request that covers its fields, with nothing resolving it in between |
| `Disclosure.ApprovedAtMostOnce` | process_kernel/src/client_env_runtime.rs:807-862 | with distinct request ids, once a request is approved or rejected it is never approved again |
| `Disclosure.ApprovedAfterRequest` | process_kernel/src/client_env_runtime.rs:322-377 | with distinct request ids, every approval of a request comes after it and is covered by it |
| `Disclosure.EarlyRejectionDoesNotCount` | process_kernel/src/client_env_runtime.rs:379-395 | a rejection appended before the request exists does not keep it from being approved |
| `Disclosure.ReturnedFieldsWereApproved` | process_kernel/src/client_env_runtime.rs:523-591 | every field a scan may return lies in an unexpired approval with the given id and in that approval's request |
| `Disclosure.AuthorizedMeaning` | process_kernel/src/client_env_runtime.rs:523-591 | the last approval that carries the id authorizes, until it expires, exactly the requested fields that it allows, and nothing when there is none (`Disclosure.UnauthorizedMeaning`) |
| `Disclosure.ClientEnvRuntime.Scan` | process_kernel/src/client_env_runtime.rs:397-521 | what a scan shows, returns and redacts: returned plus redacted fields are the available ones, and a refused authorization returns nothing |
| `Disclosure.ShownIsReturned` | process_kernel/src/client_env_runtime.rs:672-699 | the sensitive values among the collected facts are exactly the fields reported as returned |
| `Disclosure.SnapshotMeaning` | process_kernel/src/client_env_runtime.rs:397-521 | field by field: a scan of the network makes the two network fields available; the authorized ones are returned and shown in each network section, the others redacted and counted |
| `Stream.AccumulateToolCallDeltas` | process_kernel/src/model_stream.rs:233-271 | the loop over one array of fragments, a fragment without an index going to the slot of its position |
| `Stream.SlotIsSummary` | process_kernel/src/model_stream.rs:233-271 | each slot holds the last id and type given and the joined names and arguments of its own fragments, whatever came between |
| `Stream.SummariesDetermineCalls` | process_kernel/src/model_stream.rs:233-294 | the tool calls depend on each slot's own fragments only, and on those only through their summary: any interleaving and any cutting gives the same calls |
| `Stream.CallsMeaning` | process_kernel/src/model_stream.rs:233-294 | the calls are, in slot order, one for each slot that was given an id or something that is not blank: its last id or tool_call_ and the slot, its last type or function, and its name and argument pieces joined |
| `Stream.AdjacentSlotsCommute` | process_kernel/src/model_stream.rs:233-271 | two fragments of different slots may change places |
| `Stream.SplitIsInvisible` | process_kernel/src/model_stream.rs:265-269 | cutting an arguments fragment in two leaves the slots as they are |
| `Stream.ChoiceMeaning` | process_kernel/src/model_stream.rs:113-158 | what one more choice adds: its content and reasoning pieces if not empty, and its finish reason if it gives one |
| `Stream.FragmentsMeaning` | process_kernel/src/model_stream.rs:233-262 | its tool fragments follow those before, one without an index in the slot of its position |
| `Stream.ItemMeaning` | process_kernel/src/model_stream.rs:90-113 | what one more line adds: the choices of a decoded update in order, its usage if it has one, one to the event count |
| `Stream.OutcomeMeaning` | process_kernel/src/model_stream.rs:36-212 | the line at which a stream ends and the answer, case by case: each timeout, read, JSON, provider and finish-reason error, the empty response, and all fields of an answer |
| `Stream.ReadStream` | process_kernel/src/model_stream.rs:19-212 | the answer to a whole stream, for every sequence of lines, timeouts and read errors, with the tool calls that the fragments read spell; the sink gets exactly the text and reasoning pieces read, in their order, errors included, each kind numbered from 1 up to the 32-bit maximum, and of an answer they concatenate to the output text and the reasoning content |
| `Stream.RefusalMeaning` | process_kernel/src/model_stream.rs:296-315 | exactly three finish reasons fail a call, and only insufficient_system_resource is worth a retry |
| `Stream.ReadDeepseekStreamingResponse` | process_kernel/src/model_stream.rs:19-315 | the same with the finish reasons that fail a call: an answer is never one cut off, filtered or starved of resources, has text or tool calls, and its tool calls are those that the fragments spell |
| `Zip.ReadU16Le` | process_kernel/src/artifact_runtime.rs:1003-1017 | two bytes little-endian, or an error at the end of the buffer |
| `Zip.EntryEnd` | process_kernel/src/artifact_runtime.rs:961-998 | the end of an entry stays in bounds and lies at least 30 bytes after its start |
| `Zip.VerifyStoreZip` | process_kernel/src/artifact_runtime.rs:949-1002 | the walk over the bytes computes the walker specified, on arbitrary input |
| `Zip.WalkIffStoreZip` | process_kernel/src/artifact_runtime.rs:949-1002 | it returns n exactly for n >= 1 store-method entries laid out as local headers (section 4.3.7 of the PKWARE ZIP APPNOTE) followed by a central-directory or end record, or by fewer than four bytes |
| `Zip.WalkFails` | process_kernel/src/artifact_runtime.rs:949-1017 | after any number of whole entries, which error the walker reports for the bytes that follow: no local header, another method, a truncated header, an entry beyond the archive, or no entry at all |
| `Zip.WalkDecodes` | process_kernel/src/artifact_runtime.rs:949-1002 | whatever is accepted decodes to such entries, and their number is what was counted |

## Left out

- Files and directories: metadata, symlinks, path resolution, directory creation and the empty directories a rollback leaves; a finite map from normalised paths to contents, or a tree, stands for the file system.
- Limiter: torn writes of the state file and an error between creating the lock file and holding the permit (it leaves the lock as a crash does); timeouts and waits that exceed the budget are steps that may be taken at any time.
- Csv: UTF-8 decoding, cells that are not strings, and a file that cannot be read.
- Scan: the sort of directory entries and of the result, sizes summed over files, modification times, and the normalisation of the extension list; entries come in the order of the tree.
- BatchMove: the rollback itself is not code of the kernel; it is the recorded plan replayed in reverse, as the plan describes it.
- ChatLoop: prompts, argument decoding, event payloads, cited references and the counting of read usage inside a result (a call carries its result and its usage); every skipped result has one fixed content; providers that return no assistant message.
- ChatLoop: a failing write ends the turn at that point; the separate events and blobs that one record consists of are not told apart.
- Transcript: other providers, reasoning content, and compaction of a long transcript.
- Retry: writes that fail between attempts, the receipts of blocked calls, and the second clock reading that the sleep itself makes.
- Approval: JSON events with missing or mistyped fields, the fallback fields of older previews, blobs, notes and display texts; events are typed, and the fields read are those that the runtime itself writes.
- ClosureGate: advisory findings, coverage, audit and typed-verifier gaps, and artifact roles are not computed, because no verdict depends on them; the order in which the maps list failures is left open, and a failed audit is reported by its path, not once per issue.
- Disclosure: the collectors of device, storage and runtime facts, which return no sensitive field, and reading snapshots back.
- Stream: decoding of server-sent lines and of JSON (each line arrives classified), token timings and the raw response record.
- Zip: arithmetic on 32-bit platforms, where offsets could wrap around; the model's offsets are unbounded, as 64-bit offsets are for any file that fits in memory.
- SQLite stores, HTTP transport, environment variables, context-window thresholds, the office worker, the desktop shell and the user interface.
