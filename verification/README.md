# A verified model of the agent's state-keeping protocols

The agent keeps state in many places: a plan being run by goroutines, a child agent's trace, a console's turn stack over
the message table, a batch checkpoint, a cron list, a lock on an account, a memory file, a pipe to a tool server, a prompt
cache. This project models the protocol of each as Dafny code that takes the same branches as the Go code, and proves what
each promises over all inputs, all interleavings or all runs.

Code that changes state step by step is modelled by methods, loops and classes. Each is proved against a specification
function on values, and the properties are lemmas about those functions and about whole runs of them. What comes from
outside (a model's reply, a tool's output, a password check, the clock, JSON text) is a parameter: an arbitrary function or
value, so the theorems hold whatever it answers.

| file | models |
|---|---|
| `multiagent.dfy`, `aggregator.dfy`, `orchestrator.dfy` | plans, policy, planner; the aggregate; the parallel run as a transition system, and the sequential run |
| `childloop.dfy`, `dialogue.dfy`, `childtask.dfy`, `childrunner.dfy` | the two child loops as functions with their trace invariants; what the model is asked and how its conversation grows; the loops one child tries and the trace it stores; all of this as it runs |
| `resume.dfy`, `recovery.dfy`, `resumption.dfy` | snapshot encoding and decoding, the resume basis; what a resumed child gets back; what it starts from, and chains of resumes |
| `store.dfy`, `console.dfy` | session and message tables; the console's turn stack over them |
| `batch.dfy` | the batch runner and its checkpoint |
| `cron.dfy`, `auth.dfy`, `timestamps.dfy` | the job manager; login and lockout; RFC 3339 stamps and their order as text |
| `memory.dfy`, `mcp.dfy` | the memory file; Content-Length framing |
| `compressor.dfy`, `prompting.dfy` | history compression; prompt assembly, budget and cache |
| `recent.dfy`, `text.dfy`, `decimal.dfy` | backward scans with a limit; Go strings; decimal numbers |

Where a promise fails for some inputs, the code is kept as it is, an input that shows the failure is given, and the exact
condition is proved:

- A parallel plan can return results only with at least one slot. `Validate` repairs a non-positive concurrency on its own
  copy, so at zero `Run` hangs unless its context is done, and below it panics (`ReturnsIffSlots`, `Run`, `BuildAndRun`).
- A child stores the trace of the loop that succeeded, or one stub step if none did, and a trace is read back up to 200 rows,
  oldest first. So a resume recovers the last state exactly when a loop succeeded and its last snapshot lies within
  (`ResumeRecovers`, `SnapshotCanBeLost`); after a failure it starts at iteration two (`NextStart`).
- A resume repeats no iteration exactly when it recovers the last state and no failed loop went further, or the child failed
  in its first iteration (`NoRepeatIff`, `NoIterationTwiceIff`, `FailedChildRepeats`). A resume of a child that began beyond
  the cap starts over at one (`NextStart`, `StartsRise`).
- A resumed loop starts from the recovered prompt exactly when that was not blank or the child's own is empty, and from the
  recovered history, if there is one, exactly when no stored row is a successful tool step (`ResumedState`,
  `ResumeRepeatsOutputs`).
- A stored tool error is replayed under its tool's name exactly when no result marker stands in its text
  (`StoredErrorReplayedIff`, `ErrorReadAsResult`).
- Undo restores transcripts and the turn stack always, but the session row only if it already showed the last turn
  (`UndoInvertsChat`, `UndoCanChangeTheRow`, `UndosInvertChats`); the session a console created stays (`UndosLeaveSession`).
- A memory file reads back as written exactly when no entry holds the delimiter and none but the last ends in half of it
  (`RoundTrip`, `HalfDelimiterSpoils`).
- Succeeded plus failed is the total exactly when a resumed checkpoint has no index beyond the dataset
  (`CountsAddUp`, `StaleCheckpointMiscounts`).
- The lock time is stored in whole seconds, so the bound on wrong-password checks in a window holds exactly for windows that
  start on one (`WindowSafeIffWholeSecond`, `EarlyUnlock`).
- Time filters select the interval asked for exactly when the lower bound is a whole second or the upper one is in an
  earlier second (`FilterIsIntervalIff`, `FractionLetsEarlierRowIn`); text order is time order up to the end of year 9999
  (`OrderedIffFourDigits`).
- The length header is recognised in any case but read only in one; a body that is blank or not JSON costs its read an
  error (`FrameRead`, `StreamRoundTripsIff`).
- A summary stays within its limit under the rule strategy; under a model exactly when its answers do
  (`StaysWithinIff`, `LongAnswerExceeds`).
- The prompt cache is transparent exactly when requests that share a key text have the same prompt and blocks and budgets that
  admit the same suffixes of their histories; the budget is not in the key, and the key text does not mark where a field ends
  (`TransparentIff`, `TransparentIffSameRoom`, `BudgetNotInKey`, `KeyTextIsAmbiguous`).

## Model

| member | source | states |
|---|---|---|
| MultiAgent.Validate | internal/multiagent/policy.go:28-78 | Accepts a plan exactly when objective, ids and goals are non-blank, the mode is known, ids are unique, no blocked tool is listed, trimmed write scopes are disjoint across tasks and concurrency is within the limit; a refusal names a real defect of the first bad task |
| MultiAgent.CheckTask | internal/multiagent/policy.go:50-76 | One task against those before it: accepted tasks stay acceptable together, and a refusal names a defect of this one |
| MultiAgent.FindBlocked | internal/multiagent/policy.go:61-65 | A listed tool that is blocked, or none if there is none |
| MultiAgent.ClaimScopes | internal/multiagent/policy.go:66-75 | Claims all scopes of a task if none belongs to an earlier one, else names one that does |
| MultiAgent.CanRunParallel | internal/multiagent/planner.go:34-44 | True exactly for several tasks none of which writes |
| MultiAgent.Build | internal/multiagent/planner.go:16-32 | Parallel exactly when possible; under a positive policy concurrency is between one and the limit, in parallel the smaller of limit and task count; the error is the policy's verdict on the built plan |
| Aggregator.Distinct | internal/multiagent/aggregator.go:14-50 | De-duplication keeps exactly the values, each once |
| Aggregator.DistinctKeepsOrder | internal/multiagent/aggregator.go:14-50 | De-duplicated values are in the order of first occurrence |
| Aggregator.AppendMissing | internal/multiagent/aggregator.go:33-47 | Appending the values not yet seen is de-duplicating the concatenation |
| Aggregator.AggregateMeans | internal/multiagent/aggregator.go:14-50 | The aggregate of any results says how many completed, failed and were skipped, and lists exactly what they list |
| Aggregator.Collect | internal/multiagent/aggregator.go:14-50 | The nested loops compute an aggregate whose counts are the numbers of results with each status, whose risks, next actions and files are exactly those some result lists, each once, and whose summaries are the non-empty ones in result order |
| Aggregator.CountsAddUp | internal/multiagent/aggregator.go:21-29 | Completed, failed and skipped add up to the number of results when every status is one of these |
| Orchestrator.StepInv | internal/multiagent/orchestrator.go:35-58 | Every step of any goroutine, the collector or the context keeps the slot count, the channel contents and the collected results consistent |
| Orchestrator.AtMostMaxRunning | internal/multiagent/orchestrator.go:41-47 | In every interleaving, cancelled or not, at most MaxConcurrent runners are active |
| Orchestrator.StepLowersMeasure | internal/multiagent/orchestrator.go:35-58 | Every step lowers a measure, so no run is infinite |
| Orchestrator.Progress | internal/multiagent/orchestrator.go:35-58 | With at least one slot every state that is not final has an enabled step of the program itself |
| Orchestrator.CanFinish | internal/multiagent/orchestrator.go:35-58 | From every reachable state the run can be finished without cancelling it, and then returns unless it had aborted |
| Orchestrator.NoSlotNoStart | internal/multiagent/orchestrator.go:41-47 | Without a slot no runner ever starts and the run never returns results |
| Orchestrator.ReturnsIffSlots | internal/multiagent/orchestrator.go:34-58 | A parallel run of a non-empty plan can return exactly when it has at least one slot |
| Orchestrator.ReturnedIsComplete | internal/multiagent/orchestrator.go:50-58 | Once all results are received each index holds its own goroutine's result and the channel is empty |
| Orchestrator.ParallelAgreesWithSequential | internal/multiagent/orchestrator.go:34-69 | Every interleaving that returns yields the results, in task order, and the aggregate of the sequential form |
| Orchestrator.RunParallel | internal/multiagent/orchestrator.go:35-58 | Under any scheduler with a slot the parallel branch ends, with the sequential results unless the context was done; without one it is cancelled if the context is ever done and hangs otherwise |
| Orchestrator.RunSequential | internal/multiagent/orchestrator.go:59-69 | The sequential branch returns every runner's result in order, or is cancelled exactly when the context is seen done before a task |
| Orchestrator.Run | internal/multiagent/orchestrator.go:30-70 | Rejects exactly what the policy rejects; panics exactly for an acceptable parallel plan of negative concurrency, hangs exactly for one of zero concurrency whose context is never done; otherwise the results and their aggregate, or a cancellation that was asked for |
| Orchestrator.BuildAndRun | internal/multiagent/orchestrator.go:25-70 | Planned and run together, under any scheduler of the plan that is built: panics exactly for several non-writing tasks under a negative policy, hangs exactly for them under a zero one with a context that is never done |
| Orchestrator.EveryInterleavingScheduled | internal/multiagent/orchestrator.go:35-58 | Every interleaving of the goroutines, the collector and the context is one that some scheduler picks |
| ChildLoop.ActionGrows | internal/app/app.go:1234-1266 | Executing an action adds one tool step of this iteration, and executes only an allowed tool under the caller's name |
| ChildLoop.RunCallsGrows | internal/app/app.go:864-884 | The same over all tool calls of one completion |
| ChildLoop.NativeTextGrows | internal/app/app.go:885-906 | Whatever text the model answers with in the tool-calling loop, it adds tool steps of this iteration only, or ends the run with one final step; only allowed tools run and risks only grow |
| ChildLoop.JsonActionGrows | internal/app/app.go:962-979 | The same for any action, known or not, in the JSON-only loop |
| ChildLoop.AnswerGrows | internal/app/app.go:853-980 | Whatever the model answers in either loop, an iteration adds only its tool steps and, if it ends the run, one final step |
| ChildLoop.RunChains | internal/app/app.go:829-982 | A run leaves a trace that is per iteration one snapshot then its tool steps, with a single final step at the end unless capped |
| ChildLoop.ChainBounds | internal/app/app.go:853-910 | In such a trace iterations never fall, and rise at each snapshot |
| ChildLoop.LoopIsGood | internal/app/app.go:829-982 | From any seed, either loop: iterations within [max(1, next iteration), 4], a well-formed trace, only allowed tools executed under the caller's username |
| ChildRunner.RunLoop | internal/app/app.go:829-982 | Either loop, with the variables it updates, computes the specified run; what the model is asked and what its answers lead to is said by the lemmas of Dialogue |
| Dialogue.LoopBegins | internal/app/app.go:829-851 | A loop begins with the seed's prompt if it is not blank, else the child's own, the history it is given and the seed's risks, at the seed's iteration or one |
| Dialogue.ModelFailureBreaks | internal/app/app.go:855-858 | The model is asked with the history and the prompt at the top of the iteration, in both loops, and its failure ends the loop |
| Dialogue.PostFailureBreaks | internal/app/app.go:859-863 | A failure to store its answer ends the loop |
| Dialogue.TextStops | internal/app/app.go:904-906 | An answer without tool call or action is the trimmed result, closed by a final step |
| Dialogue.FinalActionStops | internal/app/app.go:900-903 | A final action ends the loop with its trimmed summary and adds its risks, in both loops |
| Dialogue.UnknownAction | internal/app/app.go:966-968 | An action of another kind is text to the tool-calling loop and an error to the JSON loop |
| Dialogue.ToolSucceeds | internal/app/app.go:1234-1266 | A tool that succeeds leaves one tool message with its rendered output, and a step verified by the field its kind of output must have |
| Dialogue.ToolFails | internal/app/app.go:1241-1256 | A tool outside the allowlist is not run, one that fails is; each leaves its error in the step, a risk and no output |
| Dialogue.CallsTold | internal/app/app.go:870-884 | Native calls run in order to the first failure; each before it adds one tool message with its name, id and own output, and the next prompt is empty or names the call that failed |
| Dialogue.NextAfterCalls | internal/app/app.go:864-884 | After native calls the model is next asked with this history, its message with the calls, and those tool messages |
| Dialogue.NextAfterAction | internal/app/app.go:885-899 | After a tool asked for in the text, the history with what was said and the tool's output, or without it and a prompt that names the failure, in both loops |
| Dialogue.LoopContinues | internal/app/app.go:853-982 | Each iteration starts from the state the one before left, four at most, then the cap is reported as summary and risk |
| ChildLoop.TurnChains | internal/app/app.go:853-980 | An iteration of either loop that begins properly leaves a trace that ends in it, closed by a final step exactly when it ends the run; only allowed tools run and risks only grow |
| ChildRunner.RunToolCalls | internal/app/app.go:870-881 | Its inner loop over tool calls, left at the first failure |
| ChildRunner.RunTask | internal/app/app.go:813-827 | Tools are tried first exactly if the seed's runtime is not JSON and a tool is allowed, JSON is tried second exactly if that fails, from the same start; only allowed tools run, and every loop that runs is a good run |
| ChildRunner.RunChild | internal/app/app.go:632-715 | Stores the trace of the loop that succeeded, or one stub step whatever the failed loops did, and reports which |
| ChildTask.TaskIsGood | internal/app/app.go:813-827 | Every loop a child runs is a good run from the seed: iterations within the cap, a well-formed trace, only allowed tools executed under the caller's username |
| Recent.ScanBack | internal/app/app.go:1497-1517 | A backward scan that stops at a limit, then reversed, is the last limit kept rows in original order |
| Recent.ReverseInPlace | internal/store/sqlite.go:1423-1425 | The in-place reversal |
| Recent.FilterKeeps | internal/app/app.go:1497-1517 | The filtered list has exactly the kept elements |
| Resume.PersistTrace | internal/app/app.go:1103-1143 | One stored row a trace step, in order, with all its columns |
| Resume.DeriveBasis | internal/app/app.go:1345-1399 | The loop over rows computes the specified basis |
| Resume.CollectToolStates | internal/app/app.go:1497-1517 | The recovered tool states are the last limit successful tool rows, oldest first |
| Resume.LastSuccess | internal/app/app.go:1345-1399 | The basis names the last tool that succeeded and its output |
| Resume.LastFailure | internal/app/app.go:1345-1399 | It names the last row that failed, with tool, error and input |
| Resume.GreatestIteration | internal/app/app.go:1345-1399 | Its last iteration is the greatest of the rows, at least zero |
| Resume.HistoryMessages | internal/app/app.go:1519-1553 | The resume history is the last limit replayable messages, oldest first |
| Resume.ResultSplits | internal/app/app.go:1565-1572 | Before the first result marker stands the tool's name, after it the content |
| Resume.ErrorSplits | internal/app/app.go:1565-1572 | Without one, the same for the first error marker |
| Resume.StoredResultReplayed | internal/app/app.go:1263 | The stored result of a tool whose name has no space is replayed with that name and that output, trimmed |
| Resume.StoredErrorReplayedIff | internal/app/app.go:1565-1572 | The stored error of a tool is replayed with its name and text exactly when no result marker stands in the text |
| Resume.ErrorReadAsResult | internal/app/app.go:1565-1572 | A stored error that is replayed as a result |
| Resume.SeedHistory | internal/app/app.go:1455-1482 | A resumed child starts from the snapshot's history followed by the recovered outputs; without one from the last eight replayable messages; without those from the last successful output, if any |
| Resume.RecoveredMessages | internal/app/app.go:1455-1467 | After the snapshot's history comes one tool message for each recovered row, in order, with its tool and its output |
| Resume.SeedFallsBack | internal/app/app.go:1468-1481 | Without that history the replayed messages if any can be replayed, else the last successful output unless it is blank |
| Resume.CallsRoundTrip | internal/app/app.go:1574-1690 | Decoding encoded tool calls gives them back |
| Resume.MessageRoundTrip | internal/app/app.go:1574-1690 | Decoding an encoded message gives it back up to trimming |
| Resume.MessagesRoundTrip | internal/app/app.go:1658-1690 | The same for a whole history |
| Resume.StringsRoundTrip | internal/app/app.go:1555-1563 | The same for lists of risks |
| Resume.SnapshotRoundTrip | internal/app/app.go:1345-1399 | Reading a snapshot yields the loop state it was taken of up to trimming, except that no risks leave older ones standing |
| Recovery.RunMarks | internal/app/app.go:853-980 | A run takes one snapshot of every iteration it begins, the last at the top of the last one, and risks only grow between them |
| Recovery.BasisSeesLastMark | internal/app/app.go:1345-1399 | The derived basis shows the last snapshot of a trace and nothing older |
| Recovery.TraceRecovers | internal/app/app.go:1345-1399 | From the stored trace of a loop, prompt, history, next iteration, runtime and risks of the last snapshot are recovered up to trimming exactly when it is among the first 200 rows |
| Recovery.SnapshotCanBeLost | internal/store/sqlite.go:1045-1046 | A run with 200 tool calls in its first iteration whose second snapshot a resume does not see |
| Recovery.LastTopBounds | internal/app/app.go:853-910 | The last iteration begun is between the first and the cap |
| Resumption.ResumeRecovers | internal/app/app.go:763-807 | A resume recovers the state at the top of the last iteration of the deciding loop exactly when that loop succeeded and its last snapshot is among the first 200 rows; a child without a successful loop leaves nothing to recover and is resumed at two |
| Resumption.ResumedRunContinues | internal/app/app.go:763-807 | A resume runs only iterations from its start within the cap: those after the last one of the successful loop when its snapshot is read back, none if that was capped, and from two on after a child without one |
| Resumption.ResumedState | internal/app/app.go:763-807 | What a resumed loop begins with, against the state at the top of the last iteration: the prompt is that one unless it was blank, when the child's own prompt replaces it; the history is that one followed by the recovered outputs, and equals it exactly when no stored row is a successful tool step; after a child without a successful loop both are those of a new child and its messages |
| Resumption.RecoveredIff | internal/app/app.go:1497-1517 | Outputs are recovered exactly when some stored row is a successful tool step |
| Resumption.ResumeRepeatsOutputs | internal/app/app.go:1455-1482 | A run of one tool call whose resume starts from another prompt and a longer history than it left |
| Resumption.NextStart | internal/app/app.go:1484-1495 | Where the resume of a child starts: at two if no loop succeeded, at one if it began beyond the cap, else later than it began, and just after its last iteration exactly when its last snapshot is read back |
| Resumption.StartsRise | internal/app/app.go:1484-1495 | Over any chain of resumes the start rises exactly when the child succeeded and began within the cap, or failed and began at one |
| Resumption.AtMostFourInARow | internal/app/app.go:632-715 | At most four children in a row of such a chain store a snapshot |
| Resumption.TwiceWithinIff | internal/app/app.go:813-827 | An iteration runs twice within one child exactly when a failed tool-calling loop and the JSON loop after it both reached it |
| Resumption.NoRepeatIff | internal/app/app.go:763-807 | A resume repeats no iteration of the child it resumes exactly when that child succeeded, its last snapshot is among the first 200 rows and no failed loop of it went further, or it failed without going beyond iteration one |
| Resumption.FailedChildRepeats | internal/app/app.go:692-695 | A child that fails in its second iteration, stores the stub, and whose resume runs that iteration again |
| Resumption.NoIterationTwiceIff | internal/app/app.go:763-807 | Over a chain of resumes that starts within the cap, no child runs an iteration of an earlier one exactly when this holds of every child but the last |
| Store.DeleteCuts | internal/store/sqlite.go:906-978 | Deleting the last turn removes the last two rows of that transcript, touches no other, and reissues no id |
| Store.DeleteValid | internal/store/sqlite.go:906-978 | It keeps ids rising and messages attached to issued sessions |
| Store.LatestIsNewest | internal/store/sqlite.go:809-830 | The session listed first is the user's of the greatest id, or the user has none |
| Store.RowsRise | internal/store/sqlite.go:1393-1427 | A transcript lists rows of its session in id order |
| Store.SessionStore.Create | internal/store/sqlite.go:789-806 | A new session row under the next id |
| Store.SessionStore.Add | internal/store/sqlite.go:867-873 | A new message row at the end |
| Store.SessionStore.Update | internal/store/sqlite.go:876-882 | Replaces the response, and the prompt when one is given, of that session only |
| Store.SessionStore.Get | internal/store/sqlite.go:848-864 | The session of that id, if any |
| Store.SessionStore.DeleteTurn | internal/store/sqlite.go:906-978 | The transaction: refused without a full turn or if the last two rows are not a pair, else as specified |
| Store.SessionStore.ListRecent | internal/store/sqlite.go:1393-1427 | The newest limit messages of a session, oldest first |
| Console.ChatTurnEffect | internal/app/app.go:303-370 | Nothing is written unless the model answers and a reused session is the user's; otherwise one user and one assistant row are appended to that session and no other changes |
| Console.StepInv | cmd/hermesctl/console.go:88-116 | Every command keeps: all turns in the active session, turnCount the stack length, the active transcript equal to base plus the turns, with no base when managed |
| Console.RunInv | cmd/hermesctl/console.go:88-116 | The same over every run of commands |
| Console.SayManaged | cmd/hermesctl/console.go:233-243 | What an answered chat turn changes in a managed session |
| Console.UndoManaged | cmd/hermesctl/console.go:637-689 | Undo removes exactly the last turn's two rows and its stack entry and refreshes the session row from the turn before |
| Console.UndoInvertsChat | cmd/hermesctl/console.go:637-689 | Undo after an answered chat turn restores every transcript, the stack and the active session; the session row exactly when it showed the last turn before |
| Console.UndoCanChangeTheRow | internal/store/sqlite.go:876-882 | Three turns and an undo after which the session row differs from what it was after two |
| Console.UndosInvertChats | cmd/hermesctl/console.go:637-689 | In a managed session as many undos as answered chats restore every transcript, the stack and the active session; the session row exactly when it showed the last turn before, or there was no chat |
| Console.UndosLeaveSession | cmd/hermesctl/console.go:637-689 | Undoing every chat of a fresh console restores every transcript but leaves the session its first chat created, active, managed and blank |
| Console.RetryReplaces | cmd/hermesctl/console.go:610-635 | An answered retry replaces the last turn by the new answer to the same prompt; a failed one leaves what undo leaves |
| Console.StepKeepsRows | cmd/hermesctl/console.go:637-689 | No command removes a row except from the active managed session |
| Console.RunKeepsOldSessions | cmd/hermesctl/console.go:592-601 | Over any run no transcript older than the console's own session loses a row |
| Console.StepKeepsUser | cmd/hermesctl/console.go:283-307 | A wrong password changes nothing, a right one leaves a fresh desk of the name given, and no other command changes the user |
| Console.UserIsLastLogin | cmd/hermesctl/console.go:283-307 | Over any run the user is the one of the last login whose password was right |
| Console.ResumeOpensAsked | cmd/hermesctl/console.go:554-608 | Resume opens exactly the session of that number, or the newest, if it is the user's: unmanaged, shown as the last chat, with an empty stack |
| Console.ResumeOpensNothingElse | cmd/hermesctl/console.go:554-608 | If no session of the user is asked for, nothing changes |
| Console.InteractiveConsole.ChatIn | internal/app/app.go:303-370 | The chat call writes as specified |
| Console.InteractiveConsole.RecordTurn | cmd/hermesctl/console.go:233-243 | Pushes the turn and updates count and last chat |
| Console.InteractiveConsole.ResetTurns | cmd/hermesctl/console.go:245-251 | Empties the stack and forgets the active session |
| Console.InteractiveConsole.HandleChat | cmd/hermesctl/console.go:88-116 | The chat branch performs the specified step |
| Console.InteractiveConsole.HandleUndo | cmd/hermesctl/console.go:637-689 | Undo performs the specified step |
| Console.InteractiveConsole.HandleRetry | cmd/hermesctl/console.go:610-635 | Retry performs the specified step |
| Console.InteractiveConsole.HandleResume | cmd/hermesctl/console.go:554-608 | Resume performs the specified step: the session becomes active and unmanaged and the stack is emptied |
| Console.InteractiveConsole.HandleLogin | cmd/hermesctl/console.go:283-307 | A wrong password leaves user and desk alone; a right one takes the name and empties the desk |
| Console.InteractiveConsole.HandleCronTick | cmd/hermesctl/console.go:1115-1122 | The chats of due jobs open sessions of their own and leave the desk alone |
| Console.InteractiveConsole.HandleLine | cmd/hermesctl/console.go:88-116 | Every line moves the state as its command says and keeps the invariant |
| Batch.AdvanceKeeps | internal/batch/runner.go:149-192 | A run never changes a checkpointed result and adds results only under their own index |
| Batch.AdvanceRuns | internal/batch/runner.go:149-192 | A run chats the items without a result in dataset order, as many as it has time for, each in the world the one before left, and the result of each tells its prompt and what came of it: error, or response, session and trajectory |
| Batch.FinishAfterCut | internal/batch/runner.go:112-195 | Finishing from the checkpoint of a run cut after any chat makes the remaining chats and no other |
| Batch.ChainAgrees | internal/batch/runner.go:112-195 | Any chain of cut and resumed runs, finished, ends with the checkpoint and the world of one uninterrupted run, for any stateful deterministic chat |
| Batch.FinishCovers | internal/batch/runner.go:149-192 | A finished run has a result for every item, and beyond them only what the checkpoint held |
| Batch.ListingUnique | internal/batch/runner.go:193 | The ascending list of results is determined by the checkpoint |
| Batch.OneResultPerItem | internal/batch/runner.go:112-195 | One result per dataset index, at its own position |
| Batch.CountsSplit | internal/batch/runner.go:159-191 | Every result counts as succeeded or failed |
| Batch.CountsMean | internal/batch/runner.go:159-191 | The counts are the numbers of successes, failures and saved trajectories |
| Batch.CountsAddUp | internal/batch/runner.go:128-147 | Succeeded plus failed equals the total exactly when the resumed checkpoint has no index beyond the dataset |
| Batch.StaleCheckpointMiscounts | internal/batch/runner.go:128-147 | A checkpoint and an empty dataset for which one success is counted out of none |
| Batch.SortByIndex | internal/batch/runner.go:193 | Sorting yields the same results, ascending |
| Batch.BatchRunner.RunWithOptions | internal/batch/runner.go:112-195 | The loop returns the finished run's results in order with their counts, and after each chat the checkpoint on file is what a run cut there leaves |
| Batch.BatchRunner.Restore | internal/batch/runner.go:128-148 | Results and counts of a loaded checkpoint, whatever order the map yields them in |
| Timestamps.CivilOf | internal/store/sqlite.go:650-657 | Every instant has valid date and time fields that denote it |
| Timestamps.EpochIsZero | internal/store/sqlite.go:650-657 | The first of January 1970 is second zero, so instants are those of the Unix clock |
| Timestamps.MonthStarts | internal/store/sqlite.go:650-657 | The day of the year each month begins on, leap years included |
| Timestamps.FormatReads | internal/store/sqlite.go:650-657 | In years 0 to 9999 the text has the RFC 3339 layout and its digits read as the fields that denote the instant |
| Timestamps.InstantOrder | internal/store/sqlite.go:650-657 | Comparing date and time fields compares the instants |
| Timestamps.TextOrder | internal/store/sqlite.go:650-657 | In years 0 to 9999, comparing formatted stamps as strings compares the instants (section 5.1 of RFC 3339) |
| Timestamps.OrderedIffFourDigits | internal/store/sqlite.go:650-657 | From year 0 on that holds exactly up to the end of year 9999 |
| Timestamps.FilterIsIntervalIff | internal/store/sqlite.go:650-657 | The from/to filters select the interval for every stored row exactly when the lower bound is a whole second or the upper bound is in an earlier second |
| Timestamps.FractionLetsEarlierRowIn | internal/store/sqlite.go:650-657 | A lower bound with a fraction that lets in a row before it |
| Cron.DisplayParsesBack | internal/cron/manager.go:101-140 | The display text of an interval is a schedule for the same interval |
| Cron.EveryMeans | internal/cron/manager.go:107-118 | A number of minutes, hours or days after every is an interval of that length |
| Cron.DurationMeans | internal/cron/manager.go:128-138 | On its own, unless it is a time, it is one run that much later |
| Cron.AddedMeans | internal/cron/manager.go:143-184 | A job is added exactly with a schedule and non-blank fields; it carries them trimmed, has not run and first runs when its schedule says |
| Cron.FiredMeans | internal/cron/manager.go:251-319 | What a run leaves in its job and what it reports agree: success exactly when no error is left, session and output kept after a failed chat, output after a failed write |
| Cron.FiredOk | internal/cron/manager.go:251-319 | Firing a due job keeps it sound and leaves it not due, however late; an interval job fires at least an interval after its last run |
| Cron.TickInv | internal/cron/manager.go:251-319 | Right after a tick no enabled job is due at that tick's time |
| Cron.RemainingMembers | internal/cron/manager.go:223-243 | Deleting removes exactly the jobs of that id |
| Cron.StepInv | internal/cron/manager.go:143-319 | Adding, deleting and ticking keep every job sound |
| Cron.RunInv | internal/cron/manager.go:143-319 | The same over every run with a clock that never goes back |
| Cron.RunsAreBounded | internal/cron/manager.go:381-415 | Over every run a once job runs at most once and is then disabled, and an interval job's run count times its interval is at most its last run minus its creation |
| Cron.ListedInTimeOrder | internal/cron/manager.go:197-204 | Sorting by formatted stamp and id is sorting by time and id, in years 0 to 9999 |
| Cron.Manager.AddJob | internal/cron/manager.go:143-184 | Refuses a bad schedule or a blank name, user or prompt in that order, else appends the job |
| Cron.Manager.ListJobs | internal/cron/manager.go:187-206 | A permutation of the jobs, in time order |
| Cron.Manager.DeleteJob | internal/cron/manager.go:223-243 | Removes the jobs of that id and says whether there was one |
| Cron.Manager.TickWith | internal/cron/manager.go:251-319 | Fires each due enabled job once, in order, and changes no other; one result and one audit row for each |
| Auth.CounterIsStreak | internal/auth/service.go:74-85 | After any run the stored counter is the number of wrong passwords since the last success modulo the limit, so below it, and a lock is stored exactly at its full multiples |
| Auth.GrantedIff | internal/auth/service.go:62-95 | Over every run an attempt is refused as locked exactly when an earlier lock covers it, and else granted exactly when its password matches |
| Auth.WindowBound | internal/auth/service.go:62-95 | From any instant to the lock length after its whole second, a window without success holds at most the limit of wrong-password checks |
| Auth.WindowSafeIffWholeSecond | internal/store/sqlite.go:440-449 | Every run keeps that bound in the half-open window of LoginWindowMinute minutes exactly when the window starts on a whole second |
| Auth.EarlyUnlock | internal/store/sqlite.go:440-449 | For any other start, a run with one check too many |
| Auth.UserStore.UpdateLoginFailure | internal/store/sqlite.go:440-449 | Rewrites counter and lock of that user only |
| Auth.UserStore.ResetLoginFailures | internal/store/sqlite.go:452-456 | Clears counter and lock of that user only |
| Auth.Service.Login | internal/auth/service.go:62-95 | On a healthy store, by the stored row and the password check alone: locked leaves everything alone; a match clears counter and lock, audits and gives the signed token; no match counts one more failure or locks. An unknown user changes nothing; a failed read or reset is reported, a failed update or audit is not, and each leaves its row as it was |
| Memory.RoundTrip | internal/memory/file_provider.go:181-207 | Reading back a written list of trimmed non-empty entries gives the same list exactly when no entry holds the delimiter and none but the last ends in its first two characters |
| Memory.HalfDelimiterSpoils | internal/memory/file_provider.go:16 | Two entries that read back as something else |
| Memory.StoredIsReadBack | internal/memory/file_provider.go:101-156 | After any edit that stored a list, the next read returns it exactly when it is separable |
| Memory.ParseShrinks | internal/memory/file_provider.go:181-207 | Rejoining the entries read is never longer than the file |
| Memory.RemoveShrinks | internal/memory/file_provider.go:137-146 | Removing an entry never makes the file longer |
| Memory.EditFits | internal/memory/file_provider.go:101-156 | A stored list is within the limit, or comes of a remove and is no longer than before |
| Memory.AddMeans | internal/memory/file_provider.go:109-121 | An add is stored exactly if its trimmed content is new, not empty and fits; then the old list is a prefix and the content the one more entry |
| Memory.ReplaceMeans | internal/memory/file_provider.go:122-136 | A replace changes the first entry that contains the trimmed part and no other, if the result fits |
| Memory.RemoveMeans | internal/memory/file_provider.go:137-146 | A remove drops the first entry that contains the trimmed part and keeps the order of the rest |
| Memory.StepTouches | internal/memory/file_provider.go:101-156 | A call changes only the file it names, and only by an edit that is stored |
| Memory.LostOnlyByTaking | internal/memory/file_provider.go:101-156 | Over every run whose lists are separable an entry disappears only by a replace or remove of that file whose part it contains |
| Memory.RunWithinLimits | internal/memory/file_provider.go:101-156 | Over every sequence of calls with arbitrary content no file exceeds its limit |
| Memory.FileProvider.ReadEntries | internal/memory/file_provider.go:181-199 | The trimmed, non-empty parts between delimiters |
| Memory.FileProvider.IndexContaining | internal/memory/file_provider.go:238-245 | The first entry that contains the text, or none |
| Memory.FileProvider.Write | internal/memory/file_provider.go:101-156 | Add, replace, remove and read, with their refusals, as the specified step says; the file then holds what AddMeans, ReplaceMeans and RemoveMeans describe |
| Memory.FileProvider.ReadAll | internal/memory/file_provider.go:90-98 | The entries of both files of a user |
| Mcp.TrimIsIdentityIff | internal/extensions/mcp_stdio.go:371 | Trimming changes nothing exactly when neither end is white space |
| Mcp.LengthReadIff | internal/extensions/mcp_stdio.go:356-362 | A length header in any case is taken for one; its number is read only in the exact spelling |
| Mcp.OtherHeadersIgnored | internal/extensions/mcp_stdio.go:347-363 | Any other header line before a frame changes nothing |
| Mcp.FrameRead | internal/extensions/mcp_stdio.go:335-380 | Reading a sent frame consumes exactly it and yields its trimmed body; the errors for a body that is empty, blank or not JSON and for a differently cased header |
| Mcp.StreamRead | internal/extensions/mcp_stdio.go:335-380 | Reading a stream of sent frames yields the outcome of every body in order and leaves what follows untouched |
| Mcp.StreamRoundTripsIff | internal/extensions/mcp_stdio.go:335-380 | Every body comes back unchanged exactly when each decodes as JSON, is not empty and has no white space at an end |
| Mcp.StdioClient.Send | internal/extensions/mcp_stdio.go:335-343 | Appends one frame to the pipe |
| Mcp.StdioClient.ReadResponse | internal/extensions/mcp_stdio.go:345-380 | The loop over header lines returns and consumes what the specified read does |
| Mcp.SortStrings | internal/extensions/mcp_stdio.go:403-411 | Sorts in place: a permutation in ascending byte order |
| Decimal.RoundTrip | internal/extensions/mcp_stdio.go:335-362 | Parsing a printed length gives it back |
| Compressor.CollapseKeepsWords | internal/contextengine/compressor.go:126-128 | Collapsing white space keeps the words and their order, and is idempotent |
| Compressor.TruncateFits | internal/contextengine/compressor.go:130-142 | Truncation never exceeds a positive limit in code points and is the identity exactly on what fits |
| Compressor.CutIsTruncate | internal/contextengine/compressor.go:105-107 | Testing bytes before truncating code points comes to truncating code points |
| Compressor.BuildSummary | internal/contextengine/compressor.go:70-109 | The loop with its early exit writes the specified summary |
| Compressor.Compress | internal/contextengine/compressor.go:38-68 | Off, or up to the threshold, the history is kept; beyond it the last messages, at least one, are the tail and those before them are summarised, without loss, and the counts say so |
| Compressor.SummaryNotBlank | internal/contextengine/compressor.go:70-109 | A summary that is not empty is not blank |
| Compressor.SummaryMeans | internal/contextengine/compressor.go:70-79 | Which summary is used: the old one without messages, a usable model answer, trimmed, else the rule summary |
| Compressor.RuleSummaryMeans | internal/contextengine/compressor.go:80-109 | A rule summary is the preamble and a line for each message with words up to the one that reaches the limit, trimmed and cut |
| Compressor.PreambleMeans | internal/contextengine/compressor.go:80-88 | The preamble holds the number of messages and the old summary's words, truncated |
| Compressor.RoleMeans | internal/contextengine/compressor.go:111-124 | A line names the role in lower case if it is a known one, else message |
| Compressor.SummaryFitsIff | internal/contextengine/compressor.go:70-109 | A summary that replaces a fitting one fits exactly when it is not a model's longer one, the no-message carry-over included |
| Compressor.RuleStaysWithin | internal/contextengine/compressor.go:50-109 | Under the rule strategy the persisted summary has at most SummaryMaxChars code points over any number of turns |
| Compressor.StaysWithinIff | internal/contextengine/compressor.go:74-78 | Under any strategy every run stays within the limit exactly when no model answer that can be used is longer |
| Compressor.LongAnswerExceeds | internal/contextengine/compressor.go:74-78 | A model and two messages for which the stored summary exceeds its limit |
| Prompting.LongestFit | internal/prompting/builder.go:206-223 | Trimming keeps the longest suffix that fits the budget, or nothing when none does |
| Prompting.BytesOfSentText | internal/prompting/builder.go:206-216 | The number counted is the byte length of prompt, system line, all blocks and all kept contents joined |
| Prompting.KeepsTheLongest | internal/prompting/builder.go:206-223 | Under a positive budget what is kept is empty or makes that joined text fit, and no longer suffix does |
| Prompting.BudgetMetIff | internal/prompting/builder.go:123-130 | The recomputed PromptChars is within the budget exactly when it would be without history |
| Prompting.KeptSameIff | internal/prompting/builder.go:206-223 | Two histories under two budgets keep the same messages exactly when the same suffixes of them are admitted |
| Prompting.TrimHistoryToBudget | internal/prompting/builder.go:206-223 | The loop on the running total computes that suffix, the longest whose joined text fits the budget |
| Prompting.BlocksAreMemoryAndSummary | internal/prompting/builder.go:91-115 | In every compression case the system blocks are a function of the memory context and the final summary, which is persisted exactly when it changed |
| Prompting.HistoryIsSuffix | internal/prompting/builder.go:104-124 | What is sent is a suffix of the recent window |
| Prompting.FreshMeans | internal/prompting/builder.go:70-156 | A fresh plan sends memory and summary as its blocks, what fits of its history, and reports the byte length of the joined text |
| Prompting.HitUntilExpiry | internal/prompting/cache.go:39-65 | A plan is answered from the cache up to its expiry and built anew after it |
| Prompting.BuildCacheKey | internal/prompting/builder.go:174-196 | The buffer holds the specified key text |
| Prompting.SameTextIff | internal/prompting/builder.go:174-196 | Two keys with the same text are the same exactly when their fields hold as many separators each |
| Prompting.SentFromKey | internal/prompting/builder.go:91-151 | Prompt, SystemBlocks, History and PromptChars of a fresh build are a function of the key and the budget |
| Prompting.SentSameIff | internal/prompting/builder.go:91-151 | Two builds send the same exactly when prompt and blocks agree and the same suffixes are admitted |
| Prompting.TransparentIff | internal/prompting/builder.go:116-151 | Over every run of builds and clears, cached answers send what a fresh build would, exactly when any two requests that share a key text have the same prompt and blocks and their budgets admit the same suffixes of their histories |
| Prompting.TransparentIffSameRoom | internal/prompting/builder.go:116-151 | Where the texts tell the keys apart, that is exactly when the budgets asked of one key admit the same suffixes of its history |
| Prompting.FixedBudgetTransparent | internal/prompting/builder.go:116-151 | So under one budget, taking keys as tuples, a cache hit sends the same Prompt, SystemBlocks, History and PromptChars as a fresh build |
| Prompting.BudgetNotInKey | internal/prompting/builder.go:174-196 | Two builds that differ only in budget, for which the cache answers wrongly |
| Prompting.KeyTextIsAmbiguous | internal/prompting/builder.go:185-191 | Two histories with the same key text, for which the cache answers wrongly |
| Prompting.Cache.constructor | internal/prompting/cache.go:31-36 | A non-positive lifetime becomes five minutes |
| Prompting.Cache.Get | internal/prompting/cache.go:39-57 | A live entry is returned marked as a hit and counted; any other is dropped and counted as a miss |
| Prompting.Cache.Set | internal/prompting/cache.go:60-65 | Stores under the key until the lifetime ends |
| Prompting.Cache.Clear | internal/prompting/cache.go:68-72 | Drops all entries and keeps the counters |
| Prompting.Builder.MakeDraft | internal/prompting/builder.go:89-115 | The blocks, summary and history grown and overwritten step by step are the specified draft |
| Prompting.Builder.Answer | internal/prompting/builder.go:116-156 | The cached plan if one is live, else a fresh one that is then cached |
| Prompting.Builder.Assemble | internal/prompting/builder.go:70-156 | A build fails on the first source that cannot be read, persists a changed summary before asking the cache, and answers as specified; what it sends comes of the memory and messages the sources gave |

## Left out

- HTTP API, gateway adapters, command-line parsing and printing, install scripts.
- The model client, auxiliary router and model discovery; a completion is an arbitrary value or an error.
- Process execution, plugins and skill discovery; a tool call is an arbitrary value or an error.
- SQLite: statements are atomic and succeed, `retryBusy` is not modelled; failing statements are modelled in a login, in prompt assembly and for the messages of a child loop only.
- JSON, YAML and JSONL text: values are taken to be encoded without loss. Strings are sequences of code points, so invalid UTF-8 is not modelled.
- Case folding is that of ASCII letters.
- Password hashing, JWT signing and SHA-256: a password check and a signature are arbitrary functions, a hash has no collisions.
- 64-bit overflow of durations and of `strconv.Atoi`.
- Logins at the same time: each login reads and writes the account in one step.
- `InitAdmin` and `CreateUser`: only easy members.
- Store.SessionStore.Create: the session row does not hold the task id, the parent session or the creation time, because no modelled operation reads them.
- The rows a child loop writes into its own session are not part of the traces theorem; the text of `buildResumeContext` and `rebuildTaskFromChildSession` are not modelled.
- Console.InteractiveConsole.HandleLine: `/multiagent-run`, `/multiagent-resume` and `/tool-exec` are not among the modelled commands, because a plan or tool may write into a session from outside the turn stack.
- `ListRecentMessagesByUsername` joins two tables; only the form by session is modelled, the scan and reversal are shared.
- Batch.BatchRunner.RunWithOptions: does not state the error texts of the summary and the timestamps, because the texts only repeat the failed results; one user and one run name, so the file name is not modelled.
- Cron: job ids are not shown to be unique; failing saves; the output file is an outcome of the reply.
- Memory recall scoring (`Prefetch`) and the hash of the user name.
- MCP: white space around a body or a number is ASCII; which bodies decode as JSON is an arbitrary predicate, and request ids are not modelled.
- The metadata map of a prompt plan; the lock of the cache, whose `Get` is taken as one step.
