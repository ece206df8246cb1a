# Honeydipper: a verified model of the workflow engine and its kernel

Honeydipper runs workflows in answer to events. This project models the parts of it whose
correctness is hardest to see by reading, and proves properties of the model for all inputs,
all runs and all interleavings:

- **The session engine.** A workflow is a tree of steps, iterations, loops, switches, else
  branches, calls and driver commands. The engine runs it as an event-driven machine: sessions in
  a store, one return at a time deciding what comes next. `Machine.dfy` is that machine as a
  function on states, `SessionEngine.dfy` the engine as an object that updates its table in place,
  and `Evaluator.dfy` a direct recursive evaluator. `Refinement.dfy` proves that the machine stops
  exactly when the evaluator has an answer, and then has sent the same commands in the same order,
  ended with the same message and context, and left the store as it was. Workflows may call each
  other recursively and loop without bound; `fuel` only makes the evaluator definable, and the
  results quantify over it. `SessionStack.dfy` proves that the sessions of a root workflow form a stack
  in every state of every run, and `WorkflowTraces.dfy` lists what a workflow sends, turn by turn, without
  recourse to the evaluator. IDs are finite: a tree that needs more than there are hangs in both.
  Interpolation, merging and conditions are arbitrary functions.
- **Joins and completion.** The join of threads, pooled parallel iteration, and the completion hooks.
- **Configuration.** The staging barrier with its resets, the assembly of repositories, and the
  extension of systems with the exact condition for it to end.
- **The kernel.** The ID allocator, the wire format, the merge modifiers and the retrying command
  wrapper.
- **Streams and rules.** The AI stream chunker, and the rule index with the driver-side filter.

Several properties one would expect turn out not to hold of the code. Each has a member that
shows it, and one that says exactly when it does hold:

- A service that has been counted in at a stage but is not asleep yet when the configuration is reset
  is never woken again (`Staging.MissedWakeUp`); `Staging.CaughtByReset` says exactly which calls
  are left waiting for good and which panic.
- Keeping runs of back quotes within one chunk does not keep code blocks whole, because trimming can
  bring two runs together (`StreamChunker.TrimmingMakesAFence`). No record cuts a block if and only if
  the misfits at the seams of every record even out (`StreamChunker.RecordsEvenIffSentEven`); that
  every seam fits is more than is needed (`StreamChunker.MisfitsCancel`), and is exactly what keeps the
  code block flag right throughout (`StreamChunker.BlocksWholeIffChunksFit`).
- A chat stream that ends outside of code does not always end: a single back quote inside a code block
  is counted as inline code for good (`StreamChunker.TickInBlockBlocksTheEnd`). `StreamChunker.StreamEnds`
  gives the condition on the input.
- A completing session is not always finalised: a completion hook whose block is neither a name nor a
  list of names leaves it in the store (`CompletionHooks.InlineHookStays`), unless the late return of
  another child is taken for the hook's (`CompletionHooks.LateReturnFinalises`). It is finalised if and
  only if the hooks that cannot be launched are no more than the other children outstanding
  (`CompletionHooks.FinalisedIffNoneMissing`).
- Completion hooks do not always run one after the other: a late return fires the second while the first
  is at work (`CompletionHooks.LateReturnOverlaps`, `CompletionHooks.OverlapIffLateReturn`).
- A command is not always answered: a handler that announces a late reply and never sends it leaves the
  attempt waiting (`ReplyChannel.SilentHandler`, `CommandRetry.AnsweredIffNoneMissing`). Nor is every
  panic of a handler recovered from (`ReplyChannel.EscapesIffReplies`, `ReplyChannel.HangsIffReplies`).
- Not every name comes back from the wire (`Wire.NamesThatDoNotSurvive`); `Wire.FetchBackIffSendable`
  says which do.
- Extending systems does not end on a cycle (`SystemExtension.SelfExtensionNeverEnds`,
  `SystemExtension.ExtensionEndsIffAcyclic`).

`dafny verify dfyconfig.toml` checks the whole project.

## Model

| member | source | states |
|---|---|---|
| `Refinement.MachineReaches` | internal/workflow/execute.go:32-92 | whatever the recursive evaluator prescribes for a root workflow, the session machine does and then stops: same commands in order, same final message and context, store unchanged |
| `Refinement.MachineAgrees` | internal/workflow/continue.go:342-380 | wherever the machine stops, the evaluator has an answer and the machine's commands, store and final state are the ones it prescribes |
| `Refinement.StopsIffDefined` | internal/workflow/execute.go:327-379 | the machine stops if and only if the evaluator has an answer, including unbounded recursion, endless loops and exhausted IDs |
| `Refinement.OneMeaning` | internal/workflow/execute.go:95-120 | any two answers of the evaluator, for whatever fuel and whatever other sessions there are in the store, are equal: message, exports, context and commands |
| `WorkflowTraces.RunSendsSteps` | internal/workflow/continue.go:58-94 | a root workflow of command steps, from any store with room: the commands of the steps are sent in order, each with the reply to the one before and with what the ones before exported, up to the first reply that ends the session, and that reply is the result; with nothing set that is the first error and failures do not stop it, with `on_error` continue and no exit on failure every step is sent, with exit on failure the first failure stops it |
| `WorkflowTraces.StepsTakeTurns` | internal/workflow/execute.go:458-463 | the same for the steps of any session at any depth: contexts numbered and without hooks, exports merged in between and passed on |
| `WorkflowTraces.ItemsAreSent` | internal/workflow/execute.go:191-203 | a session that iterates over a command sends it for each item in order, the item under `current` and under its given name and everything else as it was, until a reply ends it |
| `WorkflowTraces.RoundsAreSent` | internal/workflow/execute.go:95-120 | a session that loops over a command sends it with the number of the round as long as the loop condition holds of the reply and no reply ends it |
| `WorkflowTraces.SwitchSends` | internal/workflow/execute.go:266-296 | a switch runs the matching case, or else the default |
| `WorkflowTraces.SwitchSendsNothing` | internal/workflow/execute.go:266-296 | with neither a case nor a default nothing is sent and the switch succeeds |
| `WorkflowTraces.CallSends` | internal/workflow/session.go:445-456 | a call runs the workflow registered under that name, which takes that name if it has none, and an unnamed caller notes whom it calls |
| `WorkflowTraces.CallOfNobody` | internal/workflow/session.go:446-449 | a call of an unknown workflow ends the session with an error |
| `WorkflowTraces.ElseSends` | internal/workflow/execute.go:57-72 | where the condition does not hold the else branch runs and its exports pass through |
| `WorkflowTraces.NothingIsSent` | internal/workflow/execute.go:79-92 | without an else branch nothing is sent and the session succeeds |
| `WorkflowTraces.NothingToDo` | internal/workflow/execute.go:327-379 | a workflow without an action succeeds, and one with an empty list is not started |
| `WorkflowTraces.CannotGoOn` | internal/workflow/continue.go:281-294 | a missing function, a child that cannot be prepared and an empty list of steps end the session with an error |
| `EvaluatorFuel.SessionKeeps` | internal/workflow/execute.go:32-76 | with more fuel and more free IDs every answer stays the same, through steps, items, rounds, calls and else branches |
| `Refinement.SessionRuns` | internal/workflow/execute.go:32-76 | a session started under any parent hands its parent what the evaluator prescribes and leaves the store as it was, or keeps running for as long as the evaluator has no answer |
| `Refinement.ElseRuns` | internal/workflow/execute.go:57-72 | the else branch replaces the workflow and its exports pass through without a further export step |
| `Refinement.RoundsRun` | internal/workflow/execute.go:95-120 | rounds of a loop follow each other until the loop condition fails or the session exits early |
| `Refinement.ItemsRun` | internal/workflow/execute.go:123-138 | items of an iteration are run in order until the list ends or the session exits early |
| `Refinement.ActRuns` | internal/workflow/execute.go:327-379 | one action (call, command, steps, switch or none) ends as the evaluator says, and the session then completes or goes on |
| `Refinement.StepsRun` | internal/workflow/execute.go:458-463 | steps are run in order, each with its number in the context, until one of them ends the session |
| `Refinement.ChildRuns` | internal/workflow/session.go:375-380 | a child session returns to its parent exactly once, with its message and exports; a child that cannot be prepared completes the parent with an error |
| `Refinement.ElseReply` | internal/workflow/continue.go:72-74 | a reply to a session in its else branch completes it |
| `Workflow.AbsorbIsMerge` | internal/workflow/continue.go:97-110 | all of a child's exports are merged into the context in order, and exactly those not empty after withholding are passed on, in order |
| `Workflow.MergedInOrder` | internal/workflow/continue.go:97-110 | each export is merged over the context as the ones before left it |
| `Workflow.PassedExactly` | internal/workflow/continue.go:97-110 | exactly the exports that are not withheld as a whole are passed on, each with the keys that survive, in order |
| `Workflow.KeepExactly` | internal/workflow/continue.go:113-126 | exactly the keys named by no `no_export` entry survive, with their values; `*` withholds all |
| `Workflow.NearestDecides` | internal/workflow/session.go:365-372 | the nearest session with a non-empty `on_error`, from the child up to the root, decides it |
| `Workflow.NearestDecidesFailure` | internal/workflow/session.go:365-372 | the nearest session with a non-empty `on_failure` decides it |
| `SessionStack.SettingsAreNearest` | internal/workflow/session.go:365-380 | in every state of every run the sessions of the root workflow form a stack, each started by the one below, sessions that were there before are untouched, and each goes by the `on_error` and `on_failure` of the nearest definition below it that sets them |
| `SessionStack.StepKeeps` | internal/workflow/execute.go:32-76 | every step keeps the stack: only the top session is at work, and what is saved or completed is the top |
| `Workflow.SuccessOf` | internal/workflow/execute.go:79-82 | a session that does nothing returns success, with the message it was given if that is one already |
| `SessionEngine.Engine.MergeContext` | internal/workflow/continue.go:97-110 | the loop over a child's exports computes `Absorb` |
| `SessionEngine.Engine.ProcessNoExport` | internal/workflow/continue.go:113-126 | the loop over `no_export` computes `Keep` |
| `SessionEngine.Engine.RouteNext` | internal/workflow/continue.go:58-94 | exactly which status, settings and position lead a return to the next step, item or round, and otherwise to completion |
| `SessionEngine.Engine.ContinueExec` | internal/workflow/continue.go:342-380 | merging, routing and taking the route |
| `SessionEngine.Engine.ContinueSession` | internal/workflow/store.go:114-119 | a return to an ID that is not in the table changes no session |
| `SessionEngine.Engine.Step` | internal/workflow/execute.go:38-72 | one goroutine body, or the answer to the command that is out |
| `SessionEngine.Engine.RunSession` | internal/workflow/store.go:100-119 | whenever the evaluator has an answer, the engine run from the start of a root session comes to rest with the commands, message and context the evaluator prescribes, and the table as it was |
| `SessionStore.Store.NewSession` | internal/workflow/store.go:53-68 | a new session has no ID and is not stored |
| `SessionStore.Store.Save` | internal/workflow/session.go:107-112 | saving stores a session under an ID nobody had, once; afterwards `sessions[id]` is the session exactly when its ID is `id`, for all sessions |
| `SessionStore.Store.Complete` | internal/workflow/continue.go:242-274 | a stored session is deleted and continues its parent once per save; a session that is not stored is left alone |
| `SessionStore.Store.ContinueSession` | internal/workflow/store.go:114-119 | a return reaches the one session with that ID, or none, and no other session changes |
| `ThreadJoin.OnePasses` | internal/workflow/continue.go:72-79 | in every interleaving, whoever passes the join made the last of the n increments, nobody else passes, no thread exits early, and every thread's exports were merged exactly once |
| `ThreadJoin.PassesIffNoneExits` | internal/workflow/continue.go:58-79 | when all returns are processed, somebody has passed the join if and only if no thread's status ends the session early |
| `ThreadJoin.AllArrived` | internal/workflow/continue.go:342-356 | by the time a thread passes, all threads have merged and been counted |
| `ParallelPool.Iteration.LaunchParallelIterations` | internal/workflow/execute.go:141-158 | the first items, as many as the pool allows, are launched in order; a pool that is not positive is an error |
| `ParallelPool.Iteration.ContinueExec` | internal/workflow/continue.go:360-373 | any item in flight returns: exactly as many items as there is room for have been launched, in list order; the last return completes the session, with a failure if and only if some item failed |
| `ParallelPool.PoolIsKept` | internal/workflow/continue.go:360-373 | for every order of returns, items are launched in list order, each once, never more than the pool at a time, and something is in flight until completion |
| `ParallelPool.CompletesOnLast` | internal/workflow/continue.go:81-87 | the session completes exactly on the last return, with all items launched and back |
| `ParallelPool.FailsIffSomeItemFails` | internal/workflow/continue.go:225-229 | it completes with a non-success message if and only if some item returned one |
| `ParallelPool.FinalMessageIs` | internal/workflow/continue.go:225-229 | it completes with the message of the last return, or with that of the first one that was no success if the last one was |
| `CompletionHooks.Session.ExecuteHook` | internal/workflow/hooks.go:51-71 | the loop over a hook's block builds a child exactly when the block is a name, a list of names or an empty map; the workflows the child calls are the names in the block, in order |
| `CompletionHooks.Session.ContinueAfterHook` | internal/workflow/continue.go:297-349 | whatever returns, the hook or another child: the hooks fired stay a prefix of those due, the exports done once and the end closer; the end carries the exported message if all returns were a success, else an error |
| `CompletionHooks.HooksInOrder` | internal/workflow/continue.go:177-206 | whatever returns and in whatever order: at most one status hook is fired and after it at most one exit hook, exports once, no hook fired while another is set, finalised at most once |
| `CompletionHooks.HooksCallWhatTheyName` | internal/workflow/hooks.go:31-71 | in every run, the children launched so far are those of the hooks fired that can be launched, in order, each calling what its block names |
| `CompletionHooks.DueMeans` | internal/workflow/continue.go:185-205 | the hooks due are the one named after the exported status and then the exit hook, where defined; the error kept by parallel iteration comes first |
| `CompletionHooks.PhaseFalls` | internal/workflow/continue.go:297-349 | every return that reaches the session strictly lowers the number of phases left |
| `CompletionHooks.FinalisedIffNoneMissing` | internal/workflow/continue.go:242-252 | when nothing more can return, the session was finalised exactly once if and only if no more of the hooks due cannot be launched than other children were outstanding; its message is the exported one if all returns were a success, else an error |
| `CompletionHooks.FinalisedIffAllLaunch` | internal/workflow/continue.go:242-252 | with no other child outstanding, it was finalised if and only if the block of every hook due can be launched |
| `CompletionHooks.OverlapIffLateReturn` | internal/workflow/continue.go:342-349 | two hooks can be at work at once if and only if two are due, both can be launched and another child is outstanding |
| `CompletionHooks.LateReturnOverlaps` | internal/workflow/continue.go:342-349 | the return of another child, whatever it says, fires the exit hook beside the status hook |
| `CompletionHooks.LateReturnFinalises` | internal/workflow/continue.go:342-349 | the return of another child finalises a session whose only hook was never launched |
| `CompletionHooks.InlineHookStays` | internal/workflow/hooks.go:59-69 | with no other child outstanding, a session whose exit hook is given as a workflow in place of a name is never finalised |
| `Staging.WaitGroup.Done` | pkg/dipper/sync.go:16-27 | a decrement succeeds exactly when the counter was positive |
| `Staging.WaitGroup.DoneAll` | pkg/dipper/sync.go:30-38 | the counter ends at minus one, or one lower if it was negative, as the protocol's reset has it |
| `Staging.NextKeeps` | internal/config/config.go:223-278 | every step of the protocol keeps the invariant that ties counters, arrivals, stage and transforms together |
| `Staging.StageRises` | internal/config/config.go:248-276 | in every interleaving the stage rises one at a time, and only a reset takes it back |
| `Staging.LeaderTransforms` | internal/config/config.go:248-276 | in every run the stage rises exactly when the first to wake up for it has a transform that succeeds, a transform runs exactly for that one and to the next stage, and the locker is cleared exactly if it fails |
| `Staging.ReturnedIsReached` | internal/config/config.go:228-250 | a call of the epoch that returned has its stage reached, and one that panicked has seen a failed transform |
| `Staging.StagesTransformed` | internal/config/config.go:260-275 | every stage reached in the epoch had its transform run |
| `Staging.ArriveMeans` | internal/config/config.go:228-237 | what a service that arrives comes to by the stage there is; there is always a place for it at the next one |
| `Staging.FailureStops` | internal/config/config.go:252-258 | after a failed transform nothing arrives, rises or is transformed until the next reset |
| `Staging.NextStageCanBeReached` | internal/config/config.go:234-276 | from every reachable state with all services counted in, a run leads to the next stage with its transform |
| `Staging.LastStageCanBeReached` | internal/config/config.go:223-278 | as long as nobody asked for a stage too early, a run leads to the last stage with all transforms |
| `Staging.ResetStartsOver` | internal/config/config.go:88-114 | whatever has happened, a reset lets the services reach the last stage again |
| `Staging.ReachedTogether` | internal/config/config.go:234-240 | a stage is reached only after every service was counted in at all stages before it in that epoch |
| `Staging.TransformsOnce` | internal/config/config.go:252-276 | the transform of a stage runs at most once per epoch, failed or not |
| `Staging.CaughtByReset` | internal/config/config.go:88-114 | a call waiting across a reset never returns normally; it waits for ever exactly when it was counted in but not asleep, and otherwise can only panic |
| `Staging.NobodyLeftBehind` | pkg/dipper/sync.go:41-47 | within an epoch, once all are counted in, no call sleeps and every waiting call can go on |
| `Staging.MissedWakeUp` | internal/config/config.go:235-240 | a run in which a reset comes between the decrement and the wait |
| `RepoAssembly.Assembly.Assemble` | internal/config/repo.go:40-53 | the walk terminates on every graph, merges only loaded repositories, each once, and keeps the order when there is no cycle |
| `RepoAssembly.Assembly.AssembleAll` | internal/config/config.go:218-220 | exactly the loaded repositories reachable from the init repository are merged, each once; without cycles each after all it refers to, directly or not; each one's data is merged over what was assembled before it |
| `RepoAssembly.EndOrdered` | internal/config/repo.go:42-50 | without cycles, everything a repository refers to is merged when its own turn comes |
| `RepoAssembly.ReachedAreMerged` | internal/config/repo.go:42-47 | what can be reached from a listed repository is merged |
| `RepoAssembly.ReferredAreEarlier` | internal/config/repo.go:42-50 | along every path of references the merge order decreases |
| `SystemExtension.Staged.ExtendSystem` | internal/config/config.go:406-436 | one system and the bases it needs become final, all other systems are untouched, and the systems processed are those of the memoised walk on the graph |
| `SystemExtension.Staged.ExtendEach` | internal/config/config.go:438-445 | whatever the range yields, the systems processed are those of the walk over all systems in some such order |
| `SystemExtension.Staged.ExtendAllSystems` | internal/config/config.go:438-445 | for every acyclic extends graph and every visiting order, each system is extended once, equals the recursive definition and solves its equation: bases in order, plain ones merged and keyed ones nested, its own data on top; entries are added only for undefined bases |
| `SystemExtension.OneSolution` | internal/config/config.go:406-436 | without cycles the equations have one solution |
| `SystemExtension.PlainAndNested` | internal/config/config.go:427-433 | the value of a system with one plain and one nested base, in merges and nestings |
| `SystemExtension.NestingDoesNotMatter` | internal/config/config.go:427-431 | where no entry has a key, it does not matter how systems are nested |
| `SystemExtension.MergingDoesNotMatter` | internal/config/config.go:427-431 | where every entry has a key, what is taken over does not depend on how systems are merged |
| `SystemExtension.AllProcessed` | internal/config/config.go:438-445 | once all systems are processed, so are all bases mentioned, and all equal their definition |
| `SystemExtension.ExtensionEndsIffAcyclic` | internal/config/config.go:438-445 | for every order in which the range may yield the systems, extending them all ends if and only if no system extends itself, directly or through others |
| `SystemExtension.SelfExtensionNeverEnds` | internal/config/config.go:419-421 | one system that names itself as a base is enough for the extension never to end |
| `ExtensionTermination.EndsIffAcyclic` | internal/config/config.go:409-421 | the memoised walk, started from all nodes with bases in any order, ends exactly when the graph has no cycle |
| `SystemExtension.RankDoesNotMatter` | internal/config/config.go:406-436 | the recursive definition does not depend on the numbering that shows it well-founded |
| `MergeModifier.Merge` | pkg/dipper/mapUtils.go:391-424 | for every order of the two ranges, including keys yielded or not after being inserted, the result is the declarative default, append and override meaning, key by key; the map has no empty key, no doubled modifier, no base with both `+` and `*`, matching types under `+`, and no modifiers inside `+` and `*` values |
| `MergeModifier.MergedMeans` | pkg/dipper/mapUtils.go:392-419 | what a base holds afterwards: its override; or its value, else its default, with the appended list or string after it |
| `MergeModifier.ApplyDefaults` | pkg/dipper/mapUtils.go:392-399 | the first loop removes all default keys and keeps the meaning |
| `MergeModifier.DefaultKeeps` | pkg/dipper/mapUtils.go:393-398 | settling a default keeps the meaning of the map |
| `MergeModifier.AppendKeeps` | pkg/dipper/mapUtils.go:405-416 | an append keeps the meaning of the map |
| `MergeModifier.OverrideKeeps` | pkg/dipper/mapUtils.go:417-419 | an override keeps the meaning of the map |
| `MergeModifier.NestedKeeps` | pkg/dipper/mapUtils.go:420-421 | merging a nested map keeps the meaning of the map |
| `MergeModifier.NormalIsClean` | pkg/dipper/mapUtils.go:391-424 | no modifier is left in any nested map |
| `MergeModifier.NormalTwice` | pkg/dipper/mapUtils.go:391-424 | merging again changes nothing |
| `MergeModifier.AppendAndOverrideConflict` | pkg/dipper/mapUtils.go:404-419 | with an append and an override on one base, for every map, base and values, the two orders of the range agree if and only if appending leaves the override as it is |
| `IdMap.FreeIffRoom` | pkg/dipper/idmap.go:43-48 | there is a free ID exactly when fewer than the bound are live |
| `IdMap.TableTakes` | pkg/dipper/idmap.go:16 | a table takes 13684 entries and no more |
| `IdMap.Skips` | pkg/dipper/idmap.go:43-48 | the search passes over live IDs only and ends at a free one within one round |
| `IdMap.NextFree` | pkg/dipper/idmap.go:43-49 | the ID found is in range and not live, and all IDs from the counter up to it are live |
| `IdMap.Table.Put` | pkg/dipper/idmap.go:36-58 | terminates with a free ID left, returns the first free one from the counter on, changes the map only there, keeps the counter in range |
| `IdMap.Table.Del` | pkg/dipper/idmap.go:61-68 | removes one key and leaves the counter alone |
| `IdMap.Table.Get` | pkg/dipper/idmap.go:71-83 | finds what is there, and only that |
| `IdMap.CounterIsTravel` | pkg/dipper/idmap.go:43-55 | over any run the counter is the number of increments made, wrapped around |
| `IdMap.TravelIsProbed` | pkg/dipper/idmap.go:43-55 | every ID the counter went over was looked at by a put |
| `IdMap.FullSweep` | pkg/dipper/idmap.go:36-68 | between two allocations of the same ID, every other ID was handed out, or was live and passed over by a put |
| `Wire.Stream.SendMessage` | pkg/dipper/comm.go:196-227 | appends the encoding of the message in the order the label map is iterated |
| `Wire.Stream.FetchRawMessage` | pkg/dipper/comm.go:134-193 | takes one message off the stream, or fails, as the parser says |
| `Wire.DecimalBack` | pkg/dipper/comm.go:211-214 | lengths survive printing and scanning |
| `Wire.DecimalIs` | pkg/dipper/comm.go:211-214 | lengths are printed in ASCII digits, the most significant first, without leading zeros |
| `Wire.SampleMessage` | pkg/dipper/comm.go:211-226 | the bytes of a message with one label |
| `Wire.ReadHeaderBack` | pkg/dipper/comm.go:142-158 | an envelope line is read back and nothing more is consumed |
| `Wire.ReadLabelsBack` | pkg/dipper/comm.go:160-181 | labels in any order are read back into the same map, values being arbitrary bytes |
| `Wire.ScanWordIsWord` | pkg/dipper/comm.go:142 | whatever is scanned as a name is UTF-8 without Unicode white space |
| `Wire.FetchBackIffSendable` | pkg/dipper/comm.go:134-227 | for every message, label order and rest of the stream: reading returns the message and consumes exactly its bytes if and only if its names are non-empty UTF-8 without white space |
| `Wire.NamesThatDoNotSurvive` | pkg/dipper/comm.go:142 | a no-break space is not read as part of a name, and a byte that is not UTF-8 is read as a replacement character |
| `Wire.StreamBackIffSendable` | pkg/dipper/comm.go:134-227 | a concatenation of messages, whatever follows, is read back as the same list if and only if all names survive |
| `Wire.WritesJoin` | pkg/dipper/comm.go:211-226 | the separate writes of one send add up to the encoded message |
| `Wire.SendersDoNotMix` | pkg/dipper/comm.go:229-258 | for every interleaving of senders, whenever the lock is free the stream holds whole messages in lock order, each sender's at most once, and reads back as them if and only if their names survive |
| `ReplyChannel.AtMostOneDecision` | pkg/dipper/commandHandler.go:112-142 | in every interleaving of handler, timer and receiver an attempt is decided at most once, by the timeout or by the reply that counts: the first, or the second if the first announces it |
| `ReplyChannel.EndsAsPossible` | pkg/dipper/commandHandler.go:121-156 | an attempt can end in a timeout, in the reply that counts, or in waiting for ever on a lone announcement, and in nothing else; no later message has a say |
| `ReplyChannel.AlwaysDecidesIffNotLone` | pkg/dipper/commandHandler.go:123-127 | an attempt comes to a decision in every complete interleaving if and only if the handler does not announce a reply and then send none |
| `ReplyChannel.SilentHandler` | pkg/dipper/commandHandler.go:125-127 | a handler that only announces its reply can leave the attempt undecided for ever |
| `ReplyChannel.RunsAreShort` | pkg/dipper/commandHandler.go:112-156 | no interleaving has more steps than the handler has sends, and eight more |
| `ReplyChannel.EscapesIffReplies` | pkg/dipper/commandHandler.go:113-154 | a panic can escape the wrapper's recovery, once the channel is closed, if and only if the handler sends or panics at all |
| `ReplyChannel.HangsIffReplies` | pkg/dipper/commandHandler.go:144-154 | the handler can hang for good, the channel being cleared between the test and the send, if and only if it sends or panics at all |
| `CommandRetry.CommandWrapper.Attempt` | pkg/dipper/commandHandler.go:102-156 | one attempt and those after it: retries while the outcome wants one and retries are left, and an answer if the last attempt is decided |
| `CommandRetry.CommandWrapper.Route` | pkg/dipper/commandHandler.go:159-177 | at most max(0, retry)+1 attempts and at most one answer, exactly one for a call with a session ID when no announced reply is missing; total pause backoff*(2^k-1) |
| `CommandRetry.AnsweredIffNoneMissing` | pkg/dipper/commandHandler.go:123-138 | over all outcomes of all attempts: a call is always answered if and only if no attempt that failures can lead to announces a reply and sends none |
| `CommandRetry.AnswerMeans` | pkg/dipper/commandHandler.go:57-90 | the answer keeps the call's labels but for the retry settings, and is a success exactly when the reply did not fail |
| `CommandRetry.AnswerSays` | pkg/dipper/commandHandler.go:40-88 | status, reason and payload of the answer, for a timeout and for every reply |
| `CommandRetry.PanicIsFailure` | pkg/dipper/commandHandler.go:144-152 | a panic is retried like a failure and in the end answered as an error with its reason |
| `CommandRetry.TotalPause` | pkg/dipper/commandHandler.go:130-135 | doubling pauses add up to backoff*(2^k-1) |
| `CommandRetry.OneIsLast` | pkg/dipper/commandHandler.go:130-141 | whatever comes of the attempts, exactly one of them is the last |
| `RuleIndex.BuildRuleMap` | internal/service/engine.go:150-174 | for every event the index gives the same rules in the same order as a scan of the list, skipping invalid rules |
| `RuleIndex.CreateSessions` | internal/service/engine.go:111-135 | the rules whose condition the event meets are started, in order |
| `RuleIndex.ReceiverFeatures` | internal/service/receiver.go:46-93 | under every driver and event name, the conditions of exactly the valid rules with that driver and name are filed, in the order of the rules; invalid rules are not counted |
| `RuleIndex.ConditionsAre` | internal/service/receiver.go:67-72 | a rule is filed under its system and trigger, or under its driver and raw event |
| `RuleIndex.Accepts` | drivers/cmd/webhook/main.go:157-171 | for every order of the hooks, an event is accepted if and only if some filed condition is met |
| `RuleIndex.FiresExactly` | internal/service/engine.go:111-135 | what fires is exactly every valid rule on that raw event whose condition is met, each once and in the order of the rules |
| `RuleIndex.FiresIff` | internal/service/engine.go:111-135 | some rule fires if and only if a valid rule on that raw event has its condition met |
| `RuleIndex.FilterAgrees` | drivers/cmd/webhook/main.go:157-171 | the filter accepts exactly what fires in the engine, plus what only rules on named webhook events match |
| `StreamChunker.ChatWrapper.Stream` | drivers/cmd/hd-driver-openai/session.go:157-187 | a whole reply: nothing lost but white space, one done record and an empty buffer exactly if it ends outside code, every record even exactly if the misfits in it even out, blocks and flag whole exactly if the chunks fit |
| `StreamChunker.HandleFacts` | drivers/pkg/ai/chat_wrapper.go:174-228 | one chunk: exactly when the records it sends are even and the flag is right after it; the text, both flags and the end are what the chunk prescribes |
| `StreamChunker.CountSeam` | drivers/pkg/ai/chat_wrapper.go:187 | the fences of two texts add up, but for one more exactly if the runs of back quotes where they meet, each modulo three, make up a fence |
| `StreamChunker.AddsUpIffFits` | drivers/pkg/ai/chat_wrapper.go:187 | the parity of fences adds up exactly if the runs fit |
| `StreamChunker.RecordsEvenIffSentEven` | drivers/pkg/ai/chat_wrapper.go:186-228 | for every stream: every record holds an even number of fences if and only if each chunk that sends one meets a buffer whose misfits, its own included, even out |
| `StreamChunker.MisfitsCancel` | drivers/pkg/ai/chat_wrapper.go:186-228 | a stream with two chunks that do not fit and one whole record |
| `StreamChunker.BlocksWholeIffChunksFit` | drivers/pkg/ai/chat_wrapper.go:186-210 | for every stream: no record cuts a code block and the flag is right after every chunk if and only if every chunk fits the buffer it meets |
| `StreamChunker.ApartIsEnough` | drivers/pkg/ai/chat_wrapper.go:186-198 | it is enough that no run of back quotes goes on into the next chunk, white space aside |
| `StreamChunker.StreamIsKept` | drivers/pkg/ai/chat_wrapper.go:174-266 | for every stream, records and buffer equal the input up to white space, and a done record is the last |
| `StreamChunker.SentWhen` | drivers/pkg/ai/chat_wrapper.go:208-223 | a chunk without a border of a block is sent, with what was buffered, exactly when it ends outside code and the stream is done, a thought ends, a line ends or more than 2990 bytes have gathered |
| `StreamChunker.BufferIsBounded` | drivers/pkg/ai/chat_wrapper.go:219-222 | in every stream, outside of code no more than 2990 bytes stay buffered |
| `StreamChunker.ThoughtsAreMarked` | drivers/pkg/ai/chat_wrapper.go:155-159 | in every stream, the records of a chunk are thoughts exactly if a thought was under way or begins with it |
| `StreamChunker.TrimIs` | drivers/pkg/ai/chat_wrapper.go:196 | trimming takes all white space off both ends and nothing else |
| `StreamChunker.TicksAndFences` | drivers/pkg/ai/chat_wrapper.go:202 | every back quote belongs to a fence or counts by itself |
| `StreamChunker.InBlockIsParity` | drivers/pkg/ai/chat_wrapper.go:187-200 | the code block flag is the parity of the fences in the text, those cut by a border between chunks not counting |
| `StreamChunker.StreamEnds` | drivers/pkg/ai/chat_wrapper.go:202-223 | for every stream: it ends with one done record and an empty buffer if and only if, going by the chunks, it ends outside of blocks with an even number of single back quotes counted, or with a closing fence |
| `StreamChunker.TickInBlockBlocksTheEnd` | drivers/pkg/ai/chat_wrapper.go:202-210 | one back quote inside a closed code block leaves the stream without a done record and its last text unsent |
| `StreamChunker.TrimmingMakesAFence` | drivers/pkg/ai/chat_wrapper.go:193-198 | a stream with no fence split across chunks whose record holds an odd number of fences |

## Left out

- Threads, parallel iteration, hooks, detached calls and wait timers are not part of the session machine; threads, parallel iteration and completion hooks have models of their own.
- Lifecycle hooks before completion, and detached workflows.
- The `performing` label, the resume token and the text of error reasons: they do not decide what the engine does.
- Panics while evaluating a condition, a loop condition or an export that the program does not turn into a message.
- Session objects in `SessionEngine` are values in the table, written back by `Store`; aliasing between sessions is modelled in `SessionStore` only.
- `continueExec` is one step; two returns that reach the same session at once are modelled in `ThreadJoin` only.
- The fields of a Go message other than labels and payload, and 32-bit counters and 64-bit durations: all numbers are unbounded.
- Staging: acquiring the locker and reading it is one step; a call made while the locker is nil or after the drained stage panics at once and is not a step of the protocol.
- Systems: the spelling of `extends` entries, which are given split into base and key.
- Merging of data sets, systems and maps by external libraries is an arbitrary function.
- Wire.Stream.FetchRawMessage: does not model signs, base prefixes, underscores and overflow in numbers, which the Go scanner also accepts or refuses and the sender never writes.
- SessionStore.Store.ContinueSession: a counter stands for `continueExec`; what the session that is reached does next is the subject of `SessionEngine`.
- `RemoveComm`, which drops the lock of a writer that is closed.
- StreamChunker: hidden thoughts, tool calls and cancellation by the user.
- ReplyChannel: a handler's replies come from one goroutine, in order; the pause before a retry delays the closing of the channel and nothing else.
- CompletionHooks: what a hook's own session does; it returns once with any message, if it could be launched. The exports that come with a return are merged into the context and might redefine its hooks; here hooks stay as they are.
- The conversion of payloads to and from JSON, HTTP handling, and everything that only does input or output.
- Cloud, Kubernetes, Vault, Redis and AI drivers, the API layer, driver process management and configuration loading.
