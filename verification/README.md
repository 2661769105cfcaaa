# Verified model of the IronMem evaluation harness and repository scripts

This project models the parts of the IronMem repository that decide something: the
headless driver that runs `/collab` sessions for the A/B evaluation and the pipeline that
turns its runs into a report; bounded execution of worker processes; the diff-aware Git
hook; the skill generator; and the collab baseline gate. `dafny verify dfyconfig.toml`
checks all of it.

| file | what it models |
|---|---|
| `Std.dfy`, `Tokens.dfy`, `PyText.dfy` | results and sums, saturating token usage, Python string operations |
| `PromptRender.dfy`, `WorkerPrompt.dfy` | placeholder substitution and the leftover scanner |
| `Dispatch.dfy`, `CollabDriver.dfy`, `DriverLaws.dfy`, `DispatchTable.dfy`, `WorkerText.dfy`, `CollabTask.dfy` | the dispatcher loop over an adversarial session, the laws of every run, the dispatch as a table, and how a run becomes a result |
| `ProcTimeout.dfy` | the waiter, reader and kill protocol as a step relation |
| `StreamUsage.dfy`, `CodexTokens.dfy`, `Report.dfy`, `Corpus.dfy`, `Campaign.dfy` | the measurement pipeline from transcripts to the headline |
| `HookManifest.dfy`, `HookTable.dfy`, `HookCollect.dfy`, `HookExecute.dfy`, `HookMain.dfy` | the hook: classify, collect, execute, and what exit status 0 certifies |
| `SkillBlocks.dfy`, `SkillTokens.dfy`, `SyncSkills.dfy`, `SkillTrees.dfy` | the skill generator: blocks, tokens, rendering, write and check |
| `CollabBaseline.dfy` | capturing a baseline and checking a report against it |

How the driver is modelled. The outside world is a set of functions from the number of
calls made so far to an answer, so nothing relates one answer to another: the session row
may change arbitrarily between polls and every worker may fail. The run's state object
keeps the log of all calls with their answers. `Lawful` says that every call was permitted
by the calls before it, and the laws in `DriverLaws.dfy` hold of every lawful log.
`InContext` adds that each prompt is the one due and that no call follows a reason to stop,
`AnsweredBy` that every answer is the world's, and `Stop` reads the one way to end out of
the log. `Run` is all of this together: the driver's methods are proved to produce it, and
`DriverLaws.RunIsDetermined` says that it leaves no choice.

How the timeout protocol is modelled. Main thread, waiter, two readers and the process
group take steps in any order; waiting for the child, which reaps it, and reporting it are
two steps of the waiter; pipes are bounded; any helper may fail or panic. The group kill
ends every member, and only group members hold the pipes' write ends.

Where the code and its own documentation part:

- `run_with_timeout` is documented as whichever comes first, completion or deadline
  (`benchmarks/abeval/src/proc_timeout.rs:58-63`). The joins after a received status have
  no deadline. While no reader has failed, the call meets its documentation exactly as long
  as no descendant keeps the worker's stdout or stderr once the status is in;
  `ProcTimeout.TimeoutReachesExactly` gives the condition for every reachable state,
  with `ProcTimeout.OutlivedChildExample` and `ProcTimeout.ChattyDescendantExample`.
- The guard against signalling a recycled process id
  (`benchmarks/abeval/src/proc_timeout.rs:103-110`) narrows a race and does not close it.
  `ProcTimeout.SignalRaceExactly` says when the signal meets a reaped child, with an example
  for a child reaped before and one for a child reaped after the guard looked.
- Applying keys longest first keeps a prefix key from clobbering a longer one
  (`benchmarks/abeval/src/collab_driver.rs:369-371`), but is not the same as one pass over
  the template: an inserted value can complete a later key. `PromptRender.JoinsExactly`
  gives the exact condition for any keys none of which starts another, and
  `WorkerPrompt.PromptsAreOnePassExactly` applies it to the driver's prompts.
- The submit of a compose round is a Claude turn whose `$SENDER` is the owner in the fresh
  read, which need not be `claude` (`benchmarks/abeval/src/collab_driver.rs:985-1016`):
  `DriverLaws.CodexSubmitExample` is such a run, and `DriverLaws.SenderIsClaudeExactly` the
  condition.
- A comment says every path of a plugin root classifies as unknown
  (`scripts/git_hook/manifest.py:193-194`). The Rust, collab, skill and workflow surfaces are
  tried first and claim such paths: `HookManifest.ClaimedPluginPaths` and
  `HookManifest.ClaimedCollabPath`. `HookManifest.PluginPathsExactly` says which ones are
  unknown; none is ever inert (`HookManifest.PluginRootsAreGated`).

## Model

| member | source | states |
|---|---|---|
| `Tokens.AccumulatedIsClampedSum` | benchmarks/abeval/src/client.rs:36-47 | Adding usages one by one, saturating each time, gives in every component the minimum of `u32::MAX` and the exact sum |
| `Tokens.ClampedSumPermutes` | benchmarks/abeval/src/client.rs:36-47 | so the order in which usages are added does not matter |
| `Tokens.NestedClamp` | benchmarks/abeval/src/client.rs:36-47 | and neither does saturating the parts (a turn, a session) before the whole |
| `PromptRender.LongestKeyWins` | benchmarks/abeval/src/collab_driver.rs:369-371 | With keys sorted longest first, the key that is replaced at a `$` is the longest one standing there; a shorter prefix key cannot clobber it |
| `PromptRender.LongestFirstIsStable` | benchmarks/abeval/src/collab_driver.rs:397-403 | The sort is stable: keys of one length are applied in the order the call site lists them |
| `PromptRender.ReplaceThenPass` | benchmarks/abeval/src/collab_driver.rs:397-403 | Replacing one key everywhere and then making one left-to-right pass with the others is one pass with all of them, if no other key can be completed by the inserted value or no `$`-name of the text abuts another `$` |
| `PromptRender.ReplaceEachIsOnePass` | benchmarks/abeval/src/collab_driver.rs:397-403 | Key-by-key replacement equals the single left-to-right pass, under the same two alternatives |
| `PromptRender.InertValuesNeverJoin` | benchmarks/abeval/src/collab_driver.rs:397-403 | Non-empty values that do not start with a name character satisfy the first alternative |
| `PromptRender.JoinsExactly` | benchmarks/abeval/src/collab_driver.rs:397-403 | For any number of keys none of which starts another, the loop of replacements is one pass on every template if and only if no value can complete a key applied after its own: the exact condition |
| `PromptRender.JoiningBodyFor` | benchmarks/abeval/src/collab_driver.rs:397-403 | Whenever a value can complete any later key, a template on which the two readings differ |
| `PromptRender.TwoKeysExactly` | benchmarks/abeval/src/collab_driver.rs:397-403 | Two keys need not even be unrelated: for them the condition is exact as long as the longer is applied first |
| `PromptRender.JoiningBody` | benchmarks/abeval/src/collab_driver.rs:397-403 | and the template that shows it |
| `PromptRender.JoiningExample` | benchmarks/abeval/src/collab_driver.rs:397-403 | A concrete template where key-by-key replacement is not one pass: `$A$CD` with `$CD` = `X` and `$AX` = `z` |
| `WorkerPrompt.DriverKeysAreApart` | benchmarks/abeval/src/collab_driver.rs:927-1161 | Whatever a call site of the driver supplies, its keys are distinct `$NAME` keys, none of which starts another |
| `WorkerPrompt.PromptsAreOnePassExactly` | benchmarks/abeval/src/collab_driver.rs:927-1161 | so for every prompt of the driver, given values without a `$`, rendering is one pass over every template if and only if no value can complete a key applied after its own |
| `WorkerPrompt.OrdinaryPromptsAreOnePass` | benchmarks/abeval/src/collab_driver.rs:927-1161 | and values that are not empty and start with neither a capital letter nor an underscore make every prompt one pass |
| `PromptRender.RenderIsOrderFree` | benchmarks/abeval/src/collab_driver.rs:397-403 | The order in which a call site lists its substitutions does not change the rendered text, under the one-pass conditions |
| `PromptRender.FirstLeftoverPlaceholder` | benchmarks/abeval/src/collab_driver.rs:414-459 | The scanner returns `None` exactly when no live placeholder exists (`$`, capital letter, maximal name run, not followed by `=`), and otherwise the leftmost one, whole |
| `PromptRender.LiveExactly` | benchmarks/abeval/src/collab_driver.rs:430-456 | What counts as a leftover: `$`, a capital letter, then capitals, digits and underscores as far as they go, with no `=` behind them |
| `PromptRender.RenderPromptBody` | benchmarks/abeval/src/collab_driver.rs:388-412 | Rendering returns the substituted text exactly when nothing live is left in it, and otherwise names the leftmost leftover |
| `WorkerPrompt.Render` | benchmarks/abeval/src/collab_driver.rs:377-386 | A worker prompt is refused exactly when its template is missing or a placeholder survives; otherwise it is the template with the supplied fields |
| `WorkerPrompt.SubstitutedByName` | benchmarks/abeval/src/collab_driver.rs:927-1161 | Which value stands for which placeholder, for all seven of them, in which order, and that there are no others |
| `Dispatch.RecoveryIsNarrow` | benchmarks/abeval/src/collab_driver.rs:153-218 | Recovery columns change the dispatched action for exactly two pairs: a Codex-owned `CodeReviewLocalPending` and a Claude-owned `CodeReviewFixGlobalPending`, when they name this very pair |
| `Dispatch.MatrixIsClaudePilot` | benchmarks/abeval/src/collab_driver.rs:293-300 | Outside recovery every known running phase has exactly one agent with a turn to run, as the Claude-pilot layout says, except the blind drafts, which both agents write |
| `Dispatch.ActionAgentIsOwner` | benchmarks/abeval/src/collab_driver.rs:232-285 | The agent that runs an action is the owner of the polled row, and a terminal action means a terminal phase |
| `CollabDriver.AccountsGrow` | benchmarks/abeval/src/collab_driver.rs:625-632 | Folding one more answer into the totals keeps usage, the unparseable flag and the fix-commit count exact over the whole log of calls |
| `CollabDriver.RunAccum.AccumulateClaude` | benchmarks/abeval/src/collab_driver.rs:625-632 | A Claude turn's usage and its unparseable flag are folded together, and the totals stay exact |
| `CollabDriver.RunAccum.SpawnClaude` | benchmarks/abeval/src/collab_driver.rs:843-854 | One Claude turn: a spawn error or an error envelope is a worker failure at the right site, but its usage is already counted |
| `CollabDriver.RunAccum.SpawnCodex` | benchmarks/abeval/src/collab_driver.rs:1116-1126 | One Codex turn: commits are counted only for a turn dispatched from the global review fix phase, saturating |
| `CollabDriver.RunAccum.ReadState` | benchmarks/abeval/src/collab_driver.rs:861-873 | A read of the row returns and records the row this world answers at this call; a failed read is INVALID |
| `CollabDriver.RunAccum.NewestDraftDrawer` | benchmarks/abeval/src/collab_driver.rs:966-972 | Listing the staged drawers past a row id; a failed listing is INVALID |
| `CollabDriver.RunTurn` | benchmarks/abeval/src/collab_driver.rs:922-948 | Render and spawn one Claude turn of a round: the spawned prompt is the one this turn is due, a prompt that cannot be rendered stops the run, and any other error is the worker's own answer |
| `CollabDriver.RereadInRound` | benchmarks/abeval/src/collab_driver.rs:985-998 | The row read again before a submit is the one this world answers there; a failed read and a wrong pilot are INVALID |
| `CollabDriver.StageAndCompose` | benchmarks/abeval/src/collab_driver.rs:949-982 | Listing the drawers, then the compose turn; the row id passed on is that of the newest drawer before the turn |
| `CollabDriver.ComposeArtifact` | benchmarks/abeval/src/collab_driver.rs:949-984 | The artifact is the drawer persisted past that row id, else the printed reference, else the run is INVALID |
| `CollabDriver.ComposeAndSubmit` | benchmarks/abeval/src/collab_driver.rs:949-1048 | A whole compose round, ending in a submit by the owner of the fresh read; a blocker is INVALID |
| `CollabDriver.BridgeTaskList` | benchmarks/abeval/src/collab_driver.rs:1049-1080 | The task-list bridge turn; a blocker is INVALID |
| `CollabDriver.FinalReview` | benchmarks/abeval/src/collab_driver.rs:1127-1175 | Compose and synthetic submit of the final review, both as the polled owner |
| `CollabDriver.DispatchAction` | benchmarks/abeval/src/collab_driver.rs:913-1176 | Every action makes exactly its scripted calls, in order, or the run stops there for the one reason its calls give |
| `CollabDriver.BindSession` | benchmarks/abeval/src/collab_driver.rs:841-863 | Bootstrap: the session id this world's first turn prints and the row its first read shows, which is the first poll and has the supported pilot; otherwise the reason the run stops for |
| `CollabDriver.TakeTurn` | benchmarks/abeval/src/collab_driver.rs:906-920 | A terminal row ends the loop, an unexpected pair is INVALID, anything else is dispatched |
| `CollabDriver.DriveCollabLoop` | benchmarks/abeval/src/collab_driver.rs:832-1179 | For every context and world: the log is that world's run. Each call is the one due after the calls before it, with the prompt due and this world's answer, none is made once there is a reason to stop, the end is the one `Stop` reads out of the log, and the totals are exact on every exit path |
| `DriverLaws.PromptIsDetermined` | benchmarks/abeval/src/collab_driver.rs:913-1162 | The calls so far fix a turn's whole prompt: template, every supplied value and the rendered text |
| `DriverLaws.NextCallIsDetermined` | benchmarks/abeval/src/collab_driver.rs:832-1179 | The calls so far leave one next call, and the world one answer to it |
| `DriverLaws.RunIsDetermined` | benchmarks/abeval/src/collab_driver.rs:832-1179 | There is one run for each context and world: two logs that are runs, in worlds that agree on the answers to the first one's calls, are equal and stop the same way |
| `DriverLaws.DispatchIsSafe` | benchmarks/abeval/src/collab_driver.rs:857-912 | Every in-loop turn answers a poll with pilot `claude`, is the next call of that poll's action, is run by that poll's owner, and never follows an unexpected or finished pair |
| `DriverLaws.SenderIsFresh` | benchmarks/abeval/src/collab_driver.rs:985-1018 | Every rendered prompt is complete, is for the bootstrapped session, and names as `$SENDER` the owner in the most recent read (none in the recovery prompt) |
| `DriverLaws.SenderIsClaudeExactly` | benchmarks/abeval/src/collab_driver.rs:985-1016 | A Claude turn (the recovery prompt aside, which has no sender) is told to send as `claude` exactly if it is no submit, or the row read just before the submit is owned by `claude` |
| `DriverLaws.CodexSubmitExample` | benchmarks/abeval/src/collab_driver.rs:985-1016 | A world and the calls of its run in which ownership moves to Codex during the compose turn and the Claude submit worker is told to send as `codex` |
| `DriverLaws.PromptFits` | benchmarks/abeval/src/collab_driver.rs:922-1162 | Every Claude turn's prompt is rendered from the text its action calls for, on the run's branch; the final submit carries the synthetic PR address |
| `DispatchTable.RowsAreServed` | benchmarks/abeval/src/collab_driver.rs:232-285 | The dispatch as one table, by name: for a polled row of any phase, owner and recovery state, every call behind it is the table's next one (agent, model, template file, every supplied value, which drawers are listed), the row is polled again exactly when the table has no more, and nothing is called for a finished, unexpected or foreign-pilot row |
| `DispatchTable.RowsStop` | benchmarks/abeval/src/collab_driver.rs:875-920 | and how the run stands after each call: stalled exactly if the last three polled rows agree in phase, owner, plan round and global round, ended at `CodingComplete` or `CodingFailed`, refused for a pair the table does not have, for a missing artifact, or for a template that is missing or keeps a placeholder, ended after sixty polls, and otherwise going on |
| `DriverLaws.SubmitFollowsCompose` | benchmarks/abeval/src/collab_driver.rs:949-1019 | A submit is always the fifth call of its round and carries the artifact of the compose turn three calls earlier: the drawer found past the newest one listed before that turn, else the reference the turn printed |
| `DriverLaws.TurnsCounted` | benchmarks/abeval/src/collab_driver.rs:870-912 | Claude turns are counted against polls: one for bootstrap and at most two a poll |
| `DriverLaws.SpawnsAreBounded` | benchmarks/abeval/src/collab_driver.rs:461-463 | Any run makes at most `1 + 2 * MAX_TURNS` Claude spawns |
| `DriverLaws.PollsAreBounded` | benchmarks/abeval/src/collab_driver.rs:870-875 | The loop reads the row at most sixty times at its poll, the bound row included |
| `DriverLaws.TrailingRunMeans` | benchmarks/abeval/src/collab_driver.rs:465-475 | The stall counter counts exactly the last polls that share the `(phase, owner, plan round, global round)` key |
| `DriverLaws.StallGuardIsExact` | benchmarks/abeval/src/collab_driver.rs:881-905 | If `STUCK_LIMIT + 1` consecutive polls share a key, those are the last polls of the run and nothing was dispatched on the last one |
| `DriverLaws.StallIsReal` | benchmarks/abeval/src/collab_driver.rs:887-901 | A run stops as stalled only right after a poll, when the last `STUCK_LIMIT + 1` polls share a key |
| `WorkerText.SessionLimitExactly` | benchmarks/abeval/src/collab_driver.rs:61-74 | A message is taken for a session limit exactly if one of the five signatures stands in it, letter by letter, in any mixture of cases |
| `WorkerText.CaseDoesNotMatter` | benchmarks/abeval/src/collab_driver.rs:71-74 | Changing the case of a message's letters changes nothing |
| `WorkerText.TailBearsNothing` | benchmarks/abeval/src/collab_driver.rs:634-643 | The words the driver puts in front of a worker's text neither bear a signature nor complete one, so the verdict is about the worker's own words |
| `CollabTask.LimitIsExcluded` | benchmarks/abeval/src/collab_driver.rs:682-725 | A Claude turn that fails, or answers with an error, in the words of a session limit yields a row exactly if the Codex tokens can be attributed, and that row is excluded and retryable |
| `CollabTask.CapitalizedLimitExample` | benchmarks/abeval/src/collab_driver.rs:682-725 | A run whose bootstrap turn answers `Claude usage limit reached. Resets at 9pm.`, and its excluded row |
| `CollabTask.RunCollabTask` | benchmarks/abeval/src/collab_driver.rs:646-789 | For every context and world, about that world's run: a task yields a result exactly when Codex attribution worked and the run was cut by a session limit at a Claude site, or ended terminally and, if completed, with non-zero Claude and Codex totals and no unparseable turn; the result then reports the exact totals, phase and rounds, and is terminal iff its phase is; every error states why there is none, and the one for a loop that never polled cannot occur |
| `CollabTask.StopsForRow` | benchmarks/abeval/src/collab_driver.rs:677-743 | Only two ends can yield a row: a loop that ended by itself, and a worker's failure |
| `CollabTask.EndedLoop` | benchmarks/abeval/src/collab_driver.rs:730-743 | A loop that ended by itself is at a terminal poll exactly if its last phase is terminal, and otherwise has used exactly `MAX_TURNS` polls |
| `CollabTask.AbortedRun` | benchmarks/abeval/src/collab_driver.rs:677-725 | A worker failure is excluded and retryable exactly when it is at a Claude site and bears a session-limit signature; partial usage is kept; otherwise the error names the site, or the failed attribution |
| `CollabTask.FinishedRun` | benchmarks/abeval/src/collab_driver.rs:728-789 | A loop that ended by itself gives a result exactly when its phase is terminal and, if completed, fully measured; otherwise the first failing guard names the error |
| `CollabTask.FailedRoundIsNotTerminal` | benchmarks/abeval/src/collab_driver.rs:705-708 | A run that a worker failure aborted was never in a terminal phase |
| `ProcTimeout.GroupStepShrinks` | benchmarks/abeval/src/proc_timeout.rs:168-200 | No step of the process group except a write opens a pipe end or revives a member |
| `ProcTimeout.ReaderKeepsPipes` | benchmarks/abeval/src/proc_timeout.rs:74-90 | What was written is always what the reader captured plus what is buffered, in order |
| `ProcTimeout.StepsKeepSound` | benchmarks/abeval/src/proc_timeout.rs:64-166 | Every step of main thread, waiter, readers and process group keeps the protocol invariant |
| `ProcTimeout.RunsStaySound` | benchmarks/abeval/src/proc_timeout.rs:64-166 | so it holds in every reachable state, over all interleavings |
| `ProcTimeout.OutputIsComplete` | benchmarks/abeval/src/proc_timeout.rs:138-157 | A returned output is the child's real exit status and everything ever written to both pipes, and the group was never signalled |
| `ProcTimeout.KilledAtMostOnce` | benchmarks/abeval/src/proc_timeout.rs:100-135 | The group is killed at most once, never after a status was received, and a timeout or disconnect error is returned only after the kill |
| `ProcTimeout.SignalRaceExactly` | benchmarks/abeval/src/proc_timeout.rs:92-110 | When a signal after the deadline meets a child already reaped (so that its process id may be recycled): exactly if it was reaped before the guard looked, with its report not yet sent, or since then; the guard excludes just the reports that are in the channel |
| `ProcTimeout.ReapedBeforeGuardExample` | benchmarks/abeval/src/proc_timeout.rs:95-110 | A run of the first kind: exit, reap, deadline, guard, signal |
| `ProcTimeout.ReapedAfterGuardExample` | benchmarks/abeval/src/proc_timeout.rs:95-110 | A run of the second kind: deadline, guard, exit, reap, signal |
| `ProcTimeout.DisconnectRaceExactly` | benchmarks/abeval/src/proc_timeout.rs:121-130 | The unguarded signal after a disconnect meets a reaped child exactly if the waiter had reaped it before it panicked |
| `ProcTimeout.NeverStuck` | benchmarks/abeval/src/proc_timeout.rs:64-136 | In every reachable state before the call has returned, a fault-free step of the harness is enabled, unless the call waits for a member of the group to let go of a pipe |
| `ProcTimeout.TimeoutReachesExactly` | benchmarks/abeval/src/proc_timeout.rs:100-157 | The exact reach of the deadline, in every reachable state: the call can return without the group's help if and only if the child's status is not in (the kill is still to come), or the stdout reader has failed, or nobody keeps stdout and the stderr reader has failed or nobody keeps stderr |
| `ProcTimeout.QuietCallsEnd` | benchmarks/abeval/src/proc_timeout.rs:141-157 | Once no member keeps them, the call returns within a fixed number of its own steps, however these interleave with the group's |
| `ProcTimeout.OutputNeedsQuiet` | benchmarks/abeval/src/proc_timeout.rs:141-157 | and no output is ever returned while one does |
| `ProcTimeout.OutlivedChildExample` | benchmarks/abeval/src/proc_timeout.rs:141-157 | Such a wait is reachable before any deadline: the child leaves a descendant holding its stdout and exits |
| `ProcTimeout.ChattyDescendantExample` | benchmarks/abeval/src/proc_timeout.rs:141-157 | and with a descendant that keeps writing, the call goes on through any number of its own steps without returning, with no deadline left |
| `ProcTimeout.ErrorsAreTrue` | benchmarks/abeval/src/proc_timeout.rs:86-157 | Every error names what happened: a timeout error that the deadline passed, a lost waiter that the channel was found broken, a failed wait that waiting failed, and a failed reader that this very reader failed |
| `ProcTimeout.StepsUseWork` | benchmarks/abeval/src/proc_timeout.rs:64-166 | Every step outside the group, faults included, uses up work |
| `ProcTimeout.KillPathShrinks` | benchmarks/abeval/src/proc_timeout.rs:110-114 | After the kill every step of anyone uses up a finite amount of work |
| `ProcTimeout.KillPathEnds` | benchmarks/abeval/src/proc_timeout.rs:110-120 | so a killed call returns within that many steps |
| `StreamUsage.ParseStreamJson` | benchmarks/abeval/src/stream_usage.rs:39-117 | The usage is the clamped sum over the messages that are the last with their id; flag and text are those of the last result event; malformed, empty and unterminated transcripts are refused, in that order |
| `StreamUsage.SumValues` | benchmarks/abeval/src/stream_usage.rs:107-110 | Summing the map of last usages equals that sum, in whatever order the map is read |
| `StreamUsage.FinalUsagesDrop` | benchmarks/abeval/src/stream_usage.rs:83 | Overwriting a map entry is the same as ignoring the earlier message |
| `StreamUsage.EarlierDuplicatesAreFree` | benchmarks/abeval/src/stream_usage.rs:83 | An earlier duplicate of a message id never changes the usage |
| `StreamUsage.DistinctIdsCommute` | benchmarks/abeval/src/stream_usage.rs:83 | Messages with different ids may be reordered |
| `StreamUsage.OtherLinesAreFree` | benchmarks/abeval/src/stream_usage.rs:30-33 | The result event's own usage, and every line that is not an identified message, costs nothing |
| `CodexTokens.UsageOf` | benchmarks/abeval/src/codex_tokens.rs:123-134 | Cached input is counted once: the total is input plus output, and cache creation is zero |
| `CodexTokens.ParseRollout` | benchmarks/abeval/src/codex_tokens.rs:57-141 | A rollout gives its final cumulative count under its last session header, nothing before the first count, and an error for a missing header or a corrupt count |
| `CodexTokens.AttributeCodexTokens` | benchmarks/abeval/src/codex_tokens.rs:143-168 | Attribution is the clamped sum over the sessions started in the window, its ends included, in the worktree; an error iff some file is unreadable, with zero cache creation |
| `CodexTokens.AttributionIsOrderFree` | benchmarks/abeval/src/codex_tokens.rs:152-167 | The order of the rollout files does not matter |
| `Report.BuiltRow` | benchmarks/abeval/src/report.rs:85-131 | A row is merged iff the agent completed and the gates were green, and otherwise shows the agent's outcome; it is never estimated; its key is the task id and the arm; its tokens are the Claude total plus the Codex total iff Codex cache creation is zero; its rework is the review rounds plus the fix commits |
| `Report.CountRow` | benchmarks/abeval/src/report.rs:379-399 | One row's effect on its arm is exactly that of appending it to the arm's rows |
| `Report.Aggregate` | benchmarks/abeval/src/report.rs:377-402 | One pass computes for every arm, and only for the arms that occur, the figures of that arm's rows, which are defined field by field: done is merged, green and not estimated, tokens are all seven components, rework is rounds plus commits |
| `Report.AggregationLaws` | benchmarks/abeval/src/report.rs:367-402 | Attempted is the number of distinct task keys, attempted plus duplicates is the number of rows, and merged equals the lengths of both columns |
| `Report.SeenRowsOnlyCount` | benchmarks/abeval/src/report.rs:389-392 | Appending rows already seen changes the duplicate count and nothing else |
| `Report.FiguresPermute` | benchmarks/abeval/src/report.rs:377-416 | With distinct task keys the order of rows does not show in any figure, spread and sums for the mean included |
| `Report.Spread` | benchmarks/abeval/src/report.rs:411-416 | The spread is the largest minus the smallest element, zero for none |
| `Report.MeanIsExact` | benchmarks/abeval/src/report.rs:404-410 | The mean times the number of terms is their sum, and the empty mean is zero |
| `Report.HeadlineGate` | benchmarks/abeval/src/report.rs:443-460 | A delta is shown exactly when the evidence is live and both arms have at least eight distinct done task keys; it is about the smaller number; without live evidence there is no headline |
| `Corpus.ValidateCorpus` | benchmarks/abeval/src/corpus.rs:126-168 | Exactly the corpora of eight to twelve tasks with distinct ids are accepted in which every task has an id of letters, digits, dashes and underscores, acceptance criteria, gates, and a source that is an issue, a pull request or a backlog item |
| `Corpus.BatchBounds` | benchmarks/abeval/src/corpus.rs:182-204 | An index is valid exactly when its batch starts inside the corpus |
| `Corpus.BatchesArePrefix` | benchmarks/abeval/src/corpus.rs:182-204 | The first n batches, joined, are a prefix of the corpus of the right length |
| `Corpus.BatchesCoverCorpus` | benchmarks/abeval/src/corpus.rs:170-204 | All batches together are the corpus, for every batch size; each is non-empty and at most that size |
| `Campaign.MergedIsEarned` | benchmarks/abeval/src/collab_live.rs:199-215 | End to end: an ironmem row is merged exactly if the run's last poll showed `CodingComplete` and the gates were green, and then both agents' tokens are non-zero and every Claude turn was measured; it failed exactly if that poll showed `CodingFailed`, and is excluded exactly if a session limit cut the run |
| `Campaign.SuperpowersHasRow` | benchmarks/abeval/src/client.rs:638-674 | The superpowers arm has no result exactly if its transcript cannot be read, or a clean success spent no tokens |
| `Campaign.MeasureIronmemTask` | benchmarks/abeval/src/collab_driver.rs:646-789 | End to end, from rollouts and the driver's world to the row, about this world's run: there is a row exactly if every rollout can be read and the run yields one with their total; its tokens are those of every message of every readable transcript plus the attributed Codex tokens; it is merged exactly if the run ended at `CodingComplete` with both agents engaged, every transcript readable and green gates; it is excluded exactly for a session limit |
| `Campaign.SuperpowersMergedIsEarned` | benchmarks/abeval/src/client.rs:638-674 | A merged superpowers row comes from a clean exit, a result event without error, non-zero measured tokens and green gates; it failed exactly without a clean exit or with an error; its tokens are the transcript's, completed or not; it has no rework and is never excluded |
| `Campaign.UsagesAreMeasured` | benchmarks/abeval/src/collab_live.rs:110-142 | The driver's usages are those of the readable transcripts, clamped turn by turn, and the run is flagged exactly if some transcript could not be read |
| `Campaign.MeasuredUsage` | benchmarks/abeval/src/collab_live.rs:121-142 | A turn whose transcript cannot be read is flagged, costs nothing, shows the raw text and is no error; any other shows the text and error flag of its result |
| `Campaign.TokensAreConserved` | benchmarks/abeval/src/report.rs:43-55 | End to end: a row's tokens are those of the final usage of every message of every readable transcript, clamped once, plus the Codex total; without the flag that is every transcript of the run |
| `Campaign.RunTaskLive` | benchmarks/abeval/src/runner.rs:213-234 | One row an arm, in order, exactly when every arm and every needed gate run succeeds; gates run only for completed arms |
| `Campaign.ExecuteApprovedLive` | benchmarks/abeval/src/runner.rs:245-280 | The rows are split in order into excluded ones and the corpus file |
| `Campaign.RowsArePartitioned` | benchmarks/abeval/src/runner.rs:257-264 | Every row goes to exactly one of the two files, and an excluded row never reaches the report |
| `Campaign.CorpusRowsAreKeyed` | benchmarks/abeval/src/runner.rs:213-264 | What such a run leaves is keyed by the task id, one row an arm |
| `Campaign.LabelsAreNames` | benchmarks/abeval/src/runner.rs:213-234 | The arms' rows are named `ironmem` and `superpowers` |
| `Campaign.LoadMetricsDir` | benchmarks/abeval/src/report.rs:227-251 | Loading a directory is the union of its files' rows, refused iff a file is not live or there is no row |
| `Campaign.TaskKeysAreUnique` | benchmarks/abeval/src/corpus.rs:206-215 | Task keys of safe ids name one task and one arm |
| `Campaign.DirectoryOrderIsFree` | benchmarks/abeval/src/report.rs:227-240 | The order in which a campaign's task directories are loaded does not show in any figure |
| `Campaign.RunCampaign` | benchmarks/abeval/src/corpus.rs:170-204 | Running the corpus batch by batch into one output tree, loading the task directories in any order and aggregating gives the arms and figures of the corpus's own rows, whatever the batch size and the order; it fails exactly if some task does, or there is no row |
| `Campaign.BatchingIndependence` | benchmarks/abeval/src/corpus.rs:170-180 | For any rows the tasks leave, the batches of any size, loaded in any order, give each arm the figures of the whole corpus |
| `HookManifest.SelectedExactly` | scripts/git_hook/manifest.py:670-679 | A gate is selected iff the phase matches and it is an always gate, the change set is unknown, or some path is unclassifiable or on one of its surfaces |
| `HookManifest.ResolutionIsHomomorphic` | scripts/git_hook/manifest.py:649-679 | Gates for a concatenation of known change sets are the union of those for the parts, in manifest order |
| `HookManifest.ResolutionIgnoresOrder` | scripts/git_hook/manifest.py:637-647 | Order and duplicates of the paths do not matter |
| `HookManifest.NothingToRunExactly` | scripts/git_hook/manifest.py:659-662 | No gate runs, in either phase, exactly when the change set is known and every path is documentation or inert configuration |
| `HookManifest.PluginRootsAreGated` | scripts/git_hook/manifest.py:172-204 | No path of a `.*-plugin` root is ever inert, so it always selects some gate |
| `HookManifest.PluginPathsExactly` | scripts/git_hook/manifest.py:545-550 | What every safe path of a plugin root is classified as: it escalates exactly when it is not Rust-shaped, not a collab path, has no second segment `skills`, and is no `.js` below `workflows` |
| `HookManifest.ClaimedPluginPaths` | scripts/git_hook/manifest.py:471-481 | Three plugin-root paths that are not unknown: Rust, skill and workflow |
| `HookManifest.ClaimedCollabPath` | scripts/git_hook/manifest.py:471-481 | and a collab one |
| `HookManifest.BenchmarksAreInert` | scripts/git_hook/manifest.py:282-294 | Every safe path under `benchmarks/` is inert, whatever else it looks like, Rust source included: no earlier surface claims it |
| `HookTable.GatesByName` | scripts/git_hook/manifest.py:556-679 | The manifest by name: for each of the eight gates, the phases it runs in and the one kind of path it watches; it runs exactly for its phase, if the change set is unknown, or some path is unclassifiable or of that kind |
| `HookTable.OrdinaryPathsExactly` | scripts/git_hook/manifest.py:471-550 | What every path outside the plugin roots is, from the named files and extensions: Rust except below `benchmarks/`, else one of the named collab, hook or skill files (no path is two of these), else text, else inert configuration; anything else, and any path that is not plain, escalates |
| `HookTable.NameExactly` | scripts/git_hook/manifest.py:88-99 | The name of a path is its last segment that is not empty or a dot |
| `HookTable.PluginPathsByName` | scripts/git_hook/manifest.py:471-550 | and what every path below a plugin root is |
| `HookTable.DocumentExample` | scripts/git_hook/manifest.py:471-481 | `docs/COLLAB.md` is a collab path, not mere documentation |
| `HookCollect.NulFramingRoundTrips` | scripts/git_hook/collect.py:101-117 | Any list of NUL-free paths survives the `-z` framing byte for byte |
| `HookCollect.ListingIsRead` | scripts/git_hook/collect.py:101-117 | Reading a listing finds exactly the paths it frames, the last of which may lack its NUL |
| `HookCollect.LineExactly` | scripts/git_hook/collect.py:333-348 | What one announced ref changes, by its four fields and Git's answers: nothing if its local id is null; what the diff from a known remote id lists; for a null remote id what the diff from the first candidate branch with a merge base lists, the candidates in their order, or without any the whole tree; a malformed line, a non-id and a failed Git call each have their reason |
| `PyText.FourFields` | scripts/git_hook/collect.py:269-282 | Four words with blanks between them are four fields |
| `PyText.FirstLine` | scripts/git_hook/collect.py:324 | and a line ends at its newline |
| `PyText.FirstDosLine` | scripts/git_hook/collect.py:324 | or at a carriage return with its newline |
| `PyText.StripExactly` | scripts/git_hook/collect.py:216-233 | Stripping takes the spaces at both ends, and only them |
| `HookManifest.DedupIsFirstSeen` | scripts/git_hook/collect.py:345-348 | Paths stay as first seen: more of them are only added behind, and none is there twice |
| `HookCollect.CollectPrePushChanges` | scripts/git_hook/collect.py:307-348 | Either what every line changes is known and the result is the first-seen paths of all of them, or it is unknown, with the first problem's reason and the paths the lines before it change |
| `HookCollect.LinePathsAreCollected` | scripts/git_hook/collect.py:345-348 | A complete collection holds exactly the paths some pushed ref changes |
| `HookCollect.BlankStdinFails` | scripts/run_git_hook.py:49-53 | Whitespace-only stdin is not the absence of stdin: it is malformed, so it escalates |
| `HookExecute.ExecuteGates` | scripts/git_hook/execute.py:72-129 | The result is 0 exactly when every selected gate passes, and then all of them ran, in manifest order; otherwise the last gate started is the first that failed, and its status is returned |
| `HookExecute.NormalizedKeepsFailure` | scripts/git_hook/execute.py:101-111 | A signal status becomes 128 plus the signal, so that an 8-bit exit status still tells success from failure |
| `HookMain.RunHook` | scripts/run_git_hook.py:126-135 | For every phase, stdin and repository: the result is 0 exactly when every needed gate passes, and then exactly those ran, in manifest order; otherwise the last gate started is the first that failed. Needed are the gates that watch a path some announced ref changes (by its ids and Git's answers), or that is staged, and all of the phase if any line was malformed, any Git call failed or any path was unclassifiable. Exit status 0 is thus a certificate |
| `SyncSkills.LoadVocab` | scripts/sync_skills.py:90-120 | A vocabulary loads exactly when every harness has a table and all tables have the same tokens |
| `SkillBlocks.OpensExactly` | scripts/sync_skills.py:82 | A line opens a block for a name exactly when it matches the documented pattern with that name |
| `SkillBlocks.ClosesExactly` | scripts/sync_skills.py:83 | and closes one exactly when it matches the closing pattern |
| `SkillBlocks.StripHarnessBlocks` | scripts/sync_skills.py:123-159 | The line loop computes the scanner, error kinds and line numbers included |
| `SkillBlocks.DocumentIsRead` | scripts/sync_skills.py:128-153 | A document of plain lines and flat blocks is read as its structure says |
| `SkillBlocks.Parse` | scripts/sync_skills.py:128-153 | Whatever the scanner has read is such a document, then at most one block begun |
| `SkillBlocks.VisibleIsGrammatical` | scripts/sync_skills.py:123-159 | Stripping succeeds exactly on the texts of that grammar, and a harness then sees the lines outside blocks and those of its own blocks, in order |
| `SkillBlocks.ErrorsAreEarliest` | scripts/sync_skills.py:128-150 | An error names the first line that no continuation could repair |
| `SkillBlocks.ContentIsUnmarked` | scripts/sync_skills.py:152-153 | The content of a document is exactly its lines that are not markers |
| `SkillBlocks.ContentIsSeen` | scripts/sync_skills.py:178-181 | A line of content is seen by at least one harness, and only content is seen |
| `SkillBlocks.LinesAreConserved` | scripts/sync_skills.py:178-181 | Over all harnesses, a line outside blocks is delivered once to each and a line inside a block once in all |
| `SkillTokens.TokenAtStartIsOnly` | scripts/sync_skills.py:81 | The token recognised at a position is the only one that can stand there |
| `SkillTokens.OccurrencesAreApart` | scripts/sync_skills.py:81 | Tokens never overlap |
| `SkillTokens.SubstitutesExactly` | scripts/sync_skills.py:162-174 | The scan misses no token: substitution succeeds exactly when every token anywhere in the text is declared, and an error names one that occurs and is not |
| `SkillTokens.SplitsAtToken` | scripts/sync_skills.py:165-174 | Each token is replaced where it stands, by its own value, once; values are not scanned again |
| `SkillTokens.NoTokenNoChange` | scripts/sync_skills.py:174 | Text without a token comes back as it is |
| `SkillTokens.DeclaredByLine` | scripts/sync_skills.py:81 | No token crosses a line |
| `SyncSkills.JoinUndoesSplit` | scripts/sync_skills.py:128-159 | Splitting into lines and joining them again gives the text back |
| `SyncSkills.RenderIsComplete` | scripts/sync_skills.py:177-185 | A text renders for all harnesses exactly when its blocks are well-formed and every token on every line that is not a marker, in whatever block, is declared |
| `SkillTrees.HeaderIsInserted` | scripts/sync_skills.py:188-204 | The generated header is one inserted line; whatever stands before it is the frontmatter, still the first bytes |
| `SyncSkills.SaysExactly` | scripts/sync_skills.py:177-185 | A rendered text is the lines one harness sees of the text's document, joined, with that harness's own words for the tokens |
| `SkillTrees.GeneratedExactly` | scripts/sync_skills.py:207-227 | A generated file is that text, closed by a newline, with the header in front or behind the line that closes its frontmatter |
| `SkillTrees.AcceptableExactly` | scripts/sync_skills.py:207-227 | A source file can be generated for all harnesses exactly if its path starts with `iron-`, its blocks and tokens are right, and no frontmatter is left open |
| `SkillTrees.HeaderIsOnce` | scripts/sync_skills.py:188-204 | Every generated text carries the header, and injecting it again changes nothing |
| `SkillTrees.Plan` | scripts/sync_skills.py:207-227 | Planning succeeds exactly when every path starts with `iron-` and every file can be generated for every harness, and then holds for each harness one generated file for every source path, in that harness's words; of files with one path the last counts |
| `SkillTrees.OutputIsOwned` | scripts/sync_skills.py:216-220 | Nothing is planned outside the owned prefix |
| `SkillTrees.Targets.Write` | scripts/sync_skills.py:245-281 | After writing, each root holds what was planned plus the files the generator does not own; the reported changes are exactly the files that differed and the orphans |
| `SkillTrees.Targets.Diff` | scripts/sync_skills.py:284-303 | The reported drift is exactly the missing, stale and orphaned files |
| `SkillTrees.WriteChangesWhatDiffReports` | scripts/sync_skills.py:245-303 | Writing reports a change exactly when checking reports drift, and without drift it changes nothing |
| `SkillTrees.WritingSettles` | scripts/sync_skills.py:245-303 | After writing, checking finds nothing and a second write is a no-op |
| `SkillTrees.UnownedSurvives` | scripts/sync_skills.py:75-79 | A file outside the owned prefix is never written, changed or removed |
| `SkillTrees.Sync` | scripts/sync_skills.py:306-332 | The command: exit code 2 exactly when the vocabulary does not load or some source has a foreign path, wrong blocks, an undeclared token or open frontmatter, and then nothing is touched; otherwise each of the three harnesses is compared with or given its own generated texts: checking answers 0 exactly when in sync, writing leaves the trees in sync |
| `CollabBaseline.ValidateAll` | scripts/collab_baseline.py:186-196 | A list of distributions is accepted exactly when each is valid and no key occurs twice |
| `CollabBaseline.ItemExactly` | scripts/collab_baseline.py:85-147 | A distribution is valid exactly if its fields are: names, counts, a positive row count, a mean within a billionth of total over rows, and percentiles in order |
| `CollabBaseline.ReportExactly` | scripts/collab_baseline.py:150-203 | A report is acceptable exactly if its list and its own figures are, field by field |
| `CollabBaseline.McpDistributions` | scripts/collab_baseline.py:150-203 | A report's distributions are returned exactly when they are sound and the figures of the whole (counts, totals, mean within tolerance) agree with them |
| `CollabBaseline.ReportTask` | scripts/collab_baseline.py:68-83 | A task row is found exactly when the report is for the session and its first row for it has a missing or object outcome; it is that row |
| `CollabBaseline.BuildBaseline` | scripts/collab_baseline.py:320-358 | A baseline is built exactly from an acceptable report, row, threshold and profiles; it holds that report's distributions, that threshold, the time, the session and the row's outcome |
| `CollabBaseline.BaselineDistributions` | scripts/collab_baseline.py:361-402 | A baseline's distributions are accepted exactly when kind, version and list are sound; wrapping them as a report never refuses a sound list |
| `CollabBaseline.CheckRegression` | scripts/collab_baseline.py:430-478 | The check answers exactly for a usable baseline, a usable report and a threshold from zero to ten; it passes iff every baseline distribution has one in the report with the same `harness` and `tool_name` and a `p95_output_tokens` at most the baseline's times one plus the threshold |
| `CollabBaseline.NoRegressionIsPassing` | scripts/collab_baseline.py:445-474 | The list of regressions is empty exactly then |
| `CollabBaseline.MissingExactly` | scripts/collab_baseline.py:451-456 | A tool is reported missing exactly when the baseline has it and the report does not |
| `CollabBaseline.IncreaseExactly` | scripts/collab_baseline.py:457-471 | The comparisons are exactly the pairs of one tool with their `p95_output_tokens` and what is allowed, and the increases exactly those above it |
| `CollabBaseline.MonotoneInThreshold` | scripts/collab_baseline.py:461-471 | A higher threshold never fails what a lower one passed |
| `CollabBaseline.AddedToolsAreFree` | scripts/collab_baseline.py:445-474 | Tools the baseline does not know make no difference, wherever they appear |
| `CollabBaseline.CaptureThenCheck` | scripts/collab_baseline.py:320-478 | Capturing a report and checking the same report always passes, under the captured threshold and under any valid override |

## Left out

- The server-side collab state machine, daemon, search, SQLite access, argument builders and provisioning are not part of this model.
- Process spawning, Git, the file system, clocks and environment variables are parameters or oracles; Git's answers are a function of the command.
- JSON, JSONL and TOML decoding: transcripts, rollouts, reports and vocabularies are already decoded values. A baseline is assumed to survive being written and read back.
- Phase and agent names are decoded to datatypes with a catch-all for every other name.
- Reading the `ABEVAL_SESSION_ID=`, `ref:` and `blocker:` lines out of worker text: a worker's answer carries what those parsers return.
- PromptRender.ReplaceEachIsOnePass: assumes values without a `$`; session ids and artifact references are worker text, and a value that itself holds a placeholder would be substituted again.
- Prompt texts, error wording, log lines and the printed form of the report.
- Report.FiguresPermute: the mean is modelled by the exact sum and the count of its column; the unchecked 64-bit addition inside it is not modelled.
- CollabBaseline.CheckRegression: numbers are exact reals, so rounding of the threshold product and of means is not modelled.
- ProcTimeout.RunsStaySound: how signals are delivered is not modelled; a member that leaves the process group keeps no pipe.
- HookMain.RunHook: with exactly empty stdin the needed gates are those of the upstream range; whether that range is what a later push sends is outside the model.
- SkillTrees.Targets.Write: directories (their creation, and pruning of empty ones) and the sorted order of reported entries are not modelled; a directory standing where a file is expected is outside the model.
- CollabBaseline.BuildBaseline: phase totals, prompt profiles and review-artifact profiles enter as given values or a given failure; the gate never reads them.
- The content hash of a corpus, base-commit resolution, the dry-run executor and the smoke report path.
- The walk over the source directory: authored files come as a list of paths and texts.
