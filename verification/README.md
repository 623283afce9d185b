# Verified model of the go-journey engine

go-journey runs *journeys*: graphs of steps that call each other like procedures,
pause for client input, and carry on later from a signed token. Around that engine
stand a placeholder language for step configurations, an HTTP route table, a
scheduler with a shared result cache, a cache of live instances and an LDAP
connection pool. This project models the logic of these parts in Dafny and proves
what they promise, for every input, every run and every interleaving.

The files follow the program:

- **Journey engine.** `Tracking`, `Journey`, `Engine` (the loops over the tracking
  stack, one turn at a time), `Recursive` (the reference: SubJourney as a procedure
  call), `Turns` (what one turn does), `Outcomes` (how a journey ends and where its caller
  goes on), `Bindings` (what a call does to the contexts), `Calls` (pending calls and
  their props), `CallHistory` (where they come
  from), `Pauses` (both, across pauses), `WaitingCallers` (what a caller finds when
  its paused callee comes back), `SilentEnds` (calls that return nothing), `Ticks`
  (the loop guard), `Executor` (the loops as they are written, over a mutable
  transaction), `Session` (pause, token, suspension, resume), `Resumption` (a pause
  from end to end), `PropsSessions` (props in the stored session), `Submissions`
  (concurrent submissions of tokens).
- **Placeholders.** `Placeholders` (scanner and validator), `Json`, `Updates`,
  `Orders`, `ApplyOrders` and `UpdateTrie` (the update trie, for every order of
  visits), `Resolution` (one string), `LeafRules` (types and places), `StepConfig` and
  `StepVariables` (whole configurations), `StaticEnv`, `RuntimeConfig` and `EnvMemo`
  (the earlier evaluation of `env`).
- **Routes.** `Strings`, `RouteSpec` (the linear scan), `RouteTrie`, `RouteBound`
  (pruning), `RouteSearch`, `RouteAnswers` (answers in terms of what was declared),
  `RouteCompile`.
- **Scheduler.** `Scheduler` (atomic steps of many threads), `SchedulerRuns`,
  `SchedulerBudget`, `SchedulerJobs`, `SchedulerCache`, `SchedulerGet`,
  `SchedulerResults` (what results say of the runs).
- **Ledgers.** `Sums`, `CacheTotals` and `CacheManager`, `LdapPool` and
  `LdapPoolRuns`.

What the original changes step by step is a class with methods that change it;
what runs concurrently is a state machine whose steps are the program's critical
sections, interleaved in any order; what only computes is a function. Ordinary
steps, context and resolver lookups, value rendering and conversion, signing,
encryption and the clock are arbitrary functions handed to the model.

Some expected properties turned out to be false of the code. Each of these has a
lemma with a concrete input and a statement of when the property does hold:

- a tracking frame is not read back when its journey id contains a colon
  (`Tracking.SplitJoin`, `Tracking.SplitJoinFails`);
- an encrypted context that a step has emptied comes back full after a pause
  (`Session.PauseThenResume`, `Session.EmptiedEncryptedContextComesBack`);
- so do the props of a finished call, when they were kept in the encrypted context,
  were there at an earlier pause and were the last thing in it: the next resumed run
  finds them bound and stacked with no call pending (`PropsSessions.SlotsSurviveIff`,
  `PropsSessions.FinishedCallsPropsComeBack`, `PropsSessions.FinishedCallExists`);
- a placeholder body that starts with `${` passes the scanner and fails the
  validator (`Placeholders.ScannedIsValid`, `Placeholders.ScannerValidatorDisagree`);
- updates that meet at one array element under two spellings of its index make the
  update trie depend on iteration order, even when they are for different places
  below it (`ApplyOrders.OrdersAgreeIffClear`, `UpdateTrie.UnprintedIndicesDependOnOrder`,
  `UpdateTrie.DifferentPlacesCanClash`); a single update does not, however it is
  spelled (`UpdateTrie.SingleUpdateIsUnaliased`);
- an empty `env` value between `$` and `{` creates a placeholder
  (`StaticEnv.StaticThenDynamic`, `StaticEnv.EmptyValueCanOpen`); one that leaves a
  single placeholder alone in its string turns text into a native value, if no type
  is declared for the string (`RuntimeConfig.DynamicLeafAgreesIff`,
  `RuntimeConfig.UnsetValueMakesWhole`; saving a step types such strings, so this
  concerns journeys stored without generated variables); and a
  declared type is lost when `env` values complete a string early
  (`RuntimeConfig.EarlyEnvSkipsConversion`, `RuntimeConfig.NumberBecomesText`);
- a called journey that ends without a return value makes its caller call again and
  leaves a props entry behind (`Calls.RunConservesProps` and `Pauses.LegsConserveProps`
  count them, `SilentEnds.SilentEndCallsAgain`, `SilentEnds.SilentRounds`);
- two realms can share a key of the result cache when a realm contains a NUL
  (`SchedulerCache.AlwaysLatestIffOwnKeys`, `SchedulerCache.NulRealmsCollide`);
- the "stale" value of `Get` can be one published after the call began
  (`SchedulerGet.StaleAnswerIs`, `SchedulerGet.LateValueIsReturnedAsStale`);
- a Schedule call stores the schedule as it looked at it, so one that straddles the
  save of a run takes that run back: a spent cron schedule becomes active again and
  runs once more than its budget allows (`SchedulerBudget.CountsAreRightIffClean`,
  `SchedulerJobs.EarlyJobRevives`, `SchedulerJobs.LateJobRunsAgain`);
- a job can be added after the last run of its schedule has unscheduled it
  (`SchedulerJobs.UnschedulingIsFinalIff`, `SchedulerJobs.LateJobIsLeftBehind`);
- `RemoveCache` miscounts when a deletion fails midway, and loading miscounts when
  two records are for one instance (`CacheManager.AllOrNothingIff`,
  `CacheManager.RemovalCanStopMidway`, `CacheManager.Manager.RemoveCache`,
  `CacheManager.Manager.Load`, `CacheManager.LoadTwice`);
- a slot freed in the LDAP pool wakes no waiting thread
  (`LdapPoolRuns.StepStrandsIff`, `LdapPoolRuns.FailedDialStrandsWaiter`).

## Model

| member | source | states |
|---|---|---|
| `Tracking.SplitJoin` | types/journey.state.go:174-195 | a frame written as `journey:step` is read back as itself if and only if its journey id has no colon |
| `Tracking.SplitJoinFails` | types/journey.state.go:174-195 | two different frames that share one string, and the wrong frame read back |
| `Recursive.LoopFollowsRecursion` | execution.journey.go:309-415 | whenever the recursive run of a frame ends, the loop over any stack beneath it ends the same way (return, failure, pause or error), leaves the frames beneath untouched and hands the value to the frame below |
| `Recursive.LoopOutlastsFuel` | execution.journey.go:309-415 | a recursive run that needs more than `fuel` calls keeps the loop busy for at least `fuel` turns, so neither ends without the other |
| `Recursive.CallFollowsRecursion` | steps/sub-journey.step.go:74-80 | pushing the caller's and the callee's frame and yielding has the effect of a procedure call that comes back to the calling step |
| `Recursive.LoopFollowsFrames` | execution.journey.go:232-292 | the loop over a whole saved stack ends as running its frames from the top down, each handing its value to the next |
| `Recursive.LoopOutlastsFrames` | execution.journey.go:232-292 | the converse bound for whole stacks |
| `Recursive.LoopEqualsRecursion` | execution.journey.go:228-292 | from every resumable stack the loop and the recursive interpreter end together, with equal contexts, ticks, verdict and saved frames |
| `Recursive.HaltIsUnique` | execution.journey.go:232-292 | a run has one end state, however many turns are allowed |
| `Turns.PopLoadsJourney` | execution.journey.go:232-262 | a turn that takes a frame ends the run on an empty stack, fails exactly when the journey is unknown or inactive, and else starts at the frame's step, or at the journey's first when it names none |
| `Turns.ClearedOneByOne` | inputs/input.go:298-320 | clearing removes exactly the requests of one step and of no step, and keeps the others in order |
| `Turns.OutcomeIsFollowed` | execution.journey.go:399-414 | a step with an outcome is followed by the step it names, in the same journey, with its own requests cleared; an unknown outcome fails |
| `Turns.OtherEffects` | execution.journey.go:354-406 | an error fails the run, new inputs pause it at this frame, an empty outcome yields without inputs |
| `Turns.TerminalTells` | steps/success.step.go:31-36 | Success leaves true, Failure false and End its result for the waiting frame, HTTPFinishResponse nothing; at the top a Failure fails the run |
| `Turns.GuardDecides` | execution.journey.go:324-353 | a step that does not exist is an error; one that has run 500 times is refused within 2000 ms of its last run, and no other is |
| `Turns.GuardStopsIff` | execution.journey.go:341-367 | over a whole run: the guard refuses a step at a turn if and only if earlier turns of the run dispatched its id 500 times, the last of them ending less than 2000 ms ago |
| `Outcomes.LastStepDecides` | steps/failure.step.go:27-38 | a run of a journey is answered by the step it reaches last: true after Success, false after Failure, the result of End, nothing after other endings; it counts as failed exactly after Failure |
| `Outcomes.CallGoesOn` | steps/sub-journey.step.go:46-66 | from a call through its callee to the caller's next step: the caller takes "true" if and only if the callee ended in Success or in End with true, "false" after any other value, and is left without a value exactly after a silent end |
| `Bindings.CallBinds` | steps/sub-journey.step.go:83-104 | a call binds the configured props, puts one frame with them and the earlier binding on the stack, and touches nothing but the configured context |
| `Bindings.ReturnUnbinds` | steps/sub-journey.step.go:46-66 | with a returned value the last frame goes and its earlier binding is back, the outcome is "true" exactly for true, and only then the tag is set, once |
| `Bindings.FreshStepMoves` | steps/sub-journey.step.go:68-81 | without one the step is skipped by its tag with its contexts untouched, calls, or fails for want of a configuration, a context or an object of props |
| `Bindings.CalleeSeesProps` | steps/sub-journey.step.go:74-104 | two turns after the dispatch of a call its callee is about to run its first step, with the props of that call bound in the configured context and no client inputs |
| `Bindings.CalleeRunsWithProps` | steps/sub-journey.step.go:83-104 | the recursive run of the callee starts in the same contexts |
| `Calls.RunKeepsSound` | steps/sub-journey.step.go:46-80 | in every reachable state, pauses included, each frame below the top names a SubJourney step that can have called the frame above, and a return value waits only for the SubJourney step about to run |
| `Calls.PauseIsResumable` | execution.journey.go:369-384 | the stack saved by any pause is one that can be resumed and to which the recursive meaning applies, and all its frames but the lowest are of journeys that can be called |
| `Calls.TurnConservesProps` | steps/sub-journey.step.go:83-130 | a turn that does not fault, one that pauses or finishes included, keeps one entry on the props stacks per pending call, except that a journey ending without a return value leaves its caller's entry behind |
| `Calls.RunConservesProps` | steps/sub-journey.step.go:83-130 | over any run, up to and including a pause or the end, surplus props entries equal those at the start plus the number of such silent ends, for each of the two contexts |
| `Calls.RunRestoresProps` | steps/sub-journey.step.go:106-130 | when every journey that some SubJourney step can call returns a value (a journey nobody calls may end as it likes, in an HTTP response for instance), a journey that ends without pausing leaves both props bindings and stacks as it found them, minus the entry of a call coming back; `Pauses` has the runs that pause |
| `Calls.CallRestoresProps` | steps/sub-journey.step.go:83-130 | the same for a call whose callee does not pause, at any depth of nesting |
| `Calls.ReturnSeesPropsOfCall` | steps/sub-journey.step.go:46-80 | when the calling step runs again after a callee that did not pause, restoring gives the props binding and stack it had when it made the call |
| `CallHistory.RunTracesCalls` | steps/sub-journey.step.go:74-80 | in every reachable state, pauses included, each waiting frame was waiting for the same journey when the run began, or one of its turns dispatched exactly that frame on exactly that stack and called the journey of the frame above |
| `Pauses.LegsKeepSound` | execution.journey.go:369-384 | the shape of pending calls is kept over any number of pauses and resumes |
| `Pauses.LegsConserveProps` | steps/sub-journey.step.go:83-130 | over any number of pauses after which the resumed run finds the props slots as the pause left them (`PropsSessions.CarriedIff` says when it does), surplus props entries equal those at the start plus the silent ends of all legs |
| `Pauses.SuspendPushes` | steps/sub-journey.step.go:83-104 | a run that suspends has pushed the props of exactly its pending calls over the slots it started from |
| `Pauses.FramesRestoreProps` | steps/sub-journey.step.go:106-130 | a resumed stack that returns has taken off one push per waiting frame; one that suspends again has exactly its pending calls pushed |
| `Pauses.PausedRunsRestoreProps` | steps/sub-journey.step.go:106-130 | however often a run is paused, when it returns the props bindings and stacks are those it started from, if each resumed run finds the slots as its pause left them (`PropsSessions.SlotsSurviveIff` says when it does) |
| `Pauses.SuspendedCallRestoresProps` | steps/sub-journey.step.go:83-130 | under the same condition, from a journey whose callees suspend: when it returns, the slots are those it was started with |
| `WaitingCallers.PausedRunSplits` | execution.journey.go:232-292 | a saved stack that runs with any number of pauses runs as its frames above any waiting caller, and then, with the value they give it, as the caller and the frames below |
| `WaitingCallers.CallSuspends` | execution.journey.go:369-384 | a dispatch at any depth that calls a callee that suspends leaves the frames below, the caller, and the callee's frames |
| `WaitingCallers.PausedAboveKeepsPush` | steps/sub-journey.step.go:83-130 | whatever the frames above a waiting caller do, pausing again included, they leave the caller's own push over the slots of its call, if each resumed run finds the slots as its pause left them |
| `WaitingCallers.ResumedCallerSeesProps` | steps/sub-journey.step.go:46-80 | at any nesting depth and over any number of pauses (each leaving the slots alone), when the suspended callee comes back the run goes on at exactly the calling frame with a value, and restoring gives the props binding and stack of the dispatch that made the call |
| `PropsSessions.PauseKeepsSlotsIff` | execution.journey.go:485-501 | a pause and resume, by token or resume id, leaves both props slots alone if and only if the encrypted context survives it, or the older ciphertext that replaces the empty context has no props in it |
| `PropsSessions.SlotsSurviveIff` | execution.journey.go:455-501 | every resumed run of a run that is paused any number of times finds the slots as its pause left them, if and only if every pause meets that condition |
| `PropsSessions.CarriedIff` | execution.journey.go:455-501 | the same for the turns of the loop |
| `PropsSessions.SessionsRestoreProps` | steps/sub-journey.step.go:106-130 | from stored session to stored session: when every pause meets the condition, a run that returns leaves the slots it started from, and one that waits again has exactly its pending calls pushed |
| `PropsSessions.FinishedCallsPropsComeBack` | steps/sub-journey.step.go:121-128 | a journey with props in encCtx whose callee pauses, resumes and returns: the emptied context keeps the older ciphertext at the next pause, and the run after it finds the props of the finished call bound and stacked with no call pending |
| `PropsSessions.FinishedCallExists` | steps/sub-journey.step.go:121-128 | for any keys, a session with two such pauses, resumed by token |
| `SilentEnds.SilentEndCallsAgain` | steps/http-finish-response.step.go:24-29 | two journeys of which the called one ends in an HTTP response: every four turns the caller calls again and one more props entry stays |
| `SilentEnds.SilentRounds` | steps/http-finish-response.step.go:24-29 | from its start this world completes n such rounds, for every n up to the loop guard's 500, and then has n entries stacked with no call pending |
| `Ticks.TallyKeepsPace` | execution.journey.go:341-367 | a dispatch that passes the guard keeps every step id within 500 dispatches plus one per 2000 ms, and is counted once |
| `Ticks.RunKeepsPace` | execution.journey.go:341-367 | the pace holds over any number of turns, and n turns dispatch at least (n - 1) / 2 steps |
| `Ticks.DispatchesAreBounded` | execution.journey.go:341-367 | T ms into a run each step id was dispatched at most 500 + T/2000 times, and all together at most that times the number of step ids, cycles and nesting included |
| `Ticks.RunEndsInBoundedTime` | env/env.go:43-49 | if the clock never passes T ms, the run ends within an explicit number of turns |
| `Executor.Transaction.constructor` | execution.journey.go:193-210 | a transaction starts with no ticks over the given stack |
| `Executor.Transaction.PushTracking` | types/journey.state.go:174-179 | appends the frame's string |
| `Executor.Transaction.PopTracking` | types/journey.state.go:181-195 | undoes the last push for colon-free journey ids; two empty ids on an empty stack |
| `Executor.Transaction.GetTracking` | types/journey.state.go:197-209 | the top frame, without removing it |
| `Executor.Transaction.ExecuteSubJourney` | steps/sub-journey.step.go:37-81 | comes back from a call, skips it by tag, fails, or pushes the two frames of a new one; a new call has bound its props, one that comes back has taken its own off and answers "true" exactly for true |
| `Executor.Transaction.RecordTick` | execution.journey.go:366-367 | one more tick for the current step |
| `Executor.Transaction.GotoOutcome` | execution.journey.go:407-413 | moves to the step the outcome names or reports an invalid outcome |
| `Executor.Transaction.DispatchSubJourney` | execution.journey.go:354-414 | the turn of a SubJourney step agrees with the engine |
| `Executor.Transaction.DispatchOther` | execution.journey.go:354-414 | the turn of any other step agrees with the engine: error, pause, end of journey, yield or next step; Success, Failure and End leave true, false and the result under the waiting step |
| `Executor.Transaction.DispatchStep` | execution.journey.go:324-414 | step lookup and loop guard, then the step: one turn of the engine |
| `Executor.Transaction.ExecuteSteps` | execution.journey.go:309-415 | following outcomes within a frame is some number of engine turns |
| `Executor.Transaction.ExecuteJourney` | execution.journey.go:232-292 | for every run that ends, the loops end in the engine's end state: same verdict, stack, return values, contexts and ticks |
| `Session.PauseThenResume` | execution.journey.go:455-501 | signing, clearing, storing, validating and merging gives back the tracking stack, contexts and realm if and only if the encrypted context is not empty over an older ciphertext with content; everything but it always comes back |
| `Session.EmptiedEncryptedContextComesBack` | execution.journey.go:485-501 | an emptied encrypted context reappears with its old content |
| `Session.SuspendThenResume` | execution.journey.go:49-64 | suspension by resume id and resume gives back the same tracking stack, contexts and realm if and only if the stored state still names its journey and has a frame, and the encrypted context survives; it is refused exactly when the first fails or an old ciphertext cannot be read |
| `Session.PauseThenBack` | execution.journey.go:49-102 | by either route what comes back equals what was paused if and only if the route accepts the state and its encrypted context survives; otherwise only the encrypted context differs, and is the content of the older ciphertext |
| `Session.WrittenContextsComeBack` | execution.journey.go:455-501 | field by field: the three trees a run has written come back by either route, whatever the serialised forms of before were |
| `Session.TokenIsRefusedIff` | execution.journey.go:65-102 | a token is refused exactly when it is not valid, its top frame names no journey, or an old ciphertext cannot be read |
| `Session.IdentifierIsRefusedIff` | execution.journey.go:49-64 | a resume id is refused exactly when the closed context names no journey, there is no frame, or an old ciphertext cannot be read |
| `Session.RetryAfterRejection` | execution.journey.go:175-184 | after a submission rejected by validation a retry with the same token observes what it would have observed coming first |
| `Session.RejectionsAreInvisible` | execution.journey.go:175-184 | the same after any number of rejections |
| `Session.RejectedIsRead` | execution.journey.go:177-184 | a rejected submission stores a state whose contexts have been read and that is otherwise the same |
| `Session.JourneyState.FromToken` | token.journey.go:64-70 | the state a validated token stands for |
| `Session.JourneyState.GetCtx` | types/journey.state.go:259-271 | the tree if there is one, else one made from the serialised map; it is kept |
| `Session.JourneyState.GetEncryptedCtx` | types/journey.state.go:277-296 | the tree, else the decrypted text, else empty with the failure recorded |
| `Session.JourneyState.ClearState` | types/journey.state.go:253-257 | drops the three trees and nothing else |
| `Session.JourneyState.MergeState` | types/journey.state.go:132-157 | fills only what the token left open |
| `Session.JourneyState.SerializeContext` | execution.journey.go:485-501 | writes the context, and the encrypted one unless it is empty |
| `Session.Manager.Store` | state.journey.go:29-38 | stores under the state's id, refusing an empty one |
| `Session.Manager.GetAndDelete` | state.journey.go:53-65 | returns the stored state and removes it |
| `Session.Manager.PauseJourney` | execution.journey.go:455-483 | the token carries the serialised claims and the cleared state is stored under its id |
| `Session.Manager.SuspendJourney` | execution.journey.go:462-471 | the cleared state is stored under the resume id, without a token |
| `Session.Manager.ResumeByToken` | execution.journey.go:65-102 | succeeds exactly for a valid token whose state is stored, and takes that state |
| `Session.Manager.ResumeById` | execution.journey.go:50-102 | takes the stored state and succeeds exactly when it names its journey, has a frame and can be decrypted |
| `Resumption.RunSuspends` | execution.journey.go:369-384 | a run that suspends leaves frames that can be resumed |
| `Resumption.FramesComeBack` | execution.journey.go:49-102 | suspended frames are stored and come back, by token or by resume id, as the frames and contexts of the resumed loop, less the extension of the expiry; the loop ends as the reference meaning of those frames ends |
| `Resumption.SuspendedRunComesBack` | execution.journey.go:279-281 | the same for any run that suspends, from any stack it was started with, by either route |
| `Submissions.EveryInterleavingIsSequential` | execution.journey.go:49-85 | over every interleaving, two successful takes of one state are separated by a store of it, and no accepted state is taken again |
| `Submissions.AcceptedTokenIsSpent` | execution.journey.go:175-191 | once a submission has passed validation its state is never again in the store, whatever happens later |
| `Submissions.RejectionGivesBack` | execution.journey.go:177-184 | a submission that is refused leaves the store and the invocations as they were |
| `Submissions.AcceptanceIsStoredAnew` | execution.journey.go:185-210 | one that is accepted runs under a new id and is stored only under that, or under its resume id |
| `Placeholders.PrintParse` | types/journey.validation.go:341-363 | printing literals and `${template}` tokens gives back the scanned string |
| `Placeholders.ParsePrint` | types/journey.validation.go:341-363 | scanning undoes printing exactly on well-formed documents |
| `Placeholders.Discover` | types/journey.validation.go:341-363 | the cursor loop fails exactly on strings that do not parse and otherwise records the offsets of the parsed document |
| `Placeholders.OffsetsAreExact` | types/journey.validation.go:353-360 | offsets ascend, do not overlap, stay inside the string and each cut out exactly their own token |
| `Placeholders.ChecksDecides` | types/step.type.go:380-396 | the left-to-right check of sorted descriptors decides whether each names a well-formed token of the source, none occurs twice and no two overlap |
| `Placeholders.AnySortingDecides` | types/step.type.go:378-379 | the verdict is the same for every sorted permutation, equal starts included |
| `Placeholders.ValidateVariable` | types/step.type.go:377-396 | accepts exactly descriptors, in any order, that each name a well-formed token of the source, occur once and do not overlap |
| `Placeholders.ScannedIsValid` | types/step.type.go:364-399 | scanned descriptors pass the validator if and only if no body starts with `${` |
| `Placeholders.ScannerValidatorDisagree` | types/step.type.go:541-547 | a string that scans but does not validate |
| `Placeholders.TemplateIsStripped` | types/step.type.go:541-543 | a template names the same path with its braces and without |
| `Updates.UpdatedPathHasNewValue` | types/step.type.go:582-587 | with printed indices, the result has the new value at each updated path, and below it |
| `Updates.UnrelatedPathIsKept` | types/step.type.go:580-606 | with printed indices, every unrelated path keeps its original value |
| `Updates.AppliesIffFits` | types/step.type.go:582-624 | at every node, the pass succeeds if and only if the updates below it exist and none lies on the way to another |
| `Updates.AppliesExactly` | types/step.type.go:582-624 | applying succeeds if and only if the paths are prefix-free and all exist |
| `ApplyOrders.OrdersAgreeIffClear` | types/step.type.go:588-620 | the result is the same for all orders in which maps yield their keys if and only if updates that reach one array element under different spellings make the same of it |
| `ApplyOrders.UpdatedPlaceHasNewValue` | types/step.type.go:582-620 | then the result has the new value at each updated path, and below it, however its indices are written |
| `ApplyOrders.PlaceApartIsKept` | types/step.type.go:580-620 | for every order, a place of the tree that no update is at, above or below keeps its original value |
| `UpdateTrie.AlignedIsUpdated` | types/step.type.go:582-620 | with printed indices every order gives the reference update |
| `UpdateTrie.UnaliasedIsClear` | types/step.type.go:607-620 | when no two updates spell one index differently, the order does not matter |
| `UpdateTrie.SingleUpdateIsUnaliased` | types/step.type.go:607-620 | that is so for a single update such as `items.01` |
| `UpdateTrie.Trie.Add` | types/step.type.go:559-578 | accepts exactly non-empty paths without empty segments and updates that path alone |
| `UpdateTrie.Trie.Apply` | types/step.type.go:582-624 | succeeds exactly when the trie applies, whatever the order, and then gives the result of that order; the tree it is given is a value and stays as it was |
| `UpdateTrie.Trie.ApplyObject` | types/step.type.go:590-606 | the same at an object |
| `UpdateTrie.Trie.ApplyArray` | types/step.type.go:607-620 | the same at an array |
| `UpdateTrie.UnprintedIndicesDependOnOrder` | types/step.type.go:609-618 | a trie of the two updates `items.1` and `items.01` with different values, and two orders with different results |
| `UpdateTrie.DifferentPlacesCanClash` | types/step.type.go:609-618 | updates of `items.1.a` and `items.01.b` lose one another |
| `Json.AtoiReads` | types/step.type.go:608-616 | indices are read with a sign or leading zeros |
| `Resolution.SpliceIsSubstitution` | types/step.type.go:501-520 | on scanned offsets the builder loop substitutes each token once, without reading inserted text again |
| `Resolution.BuildText` | types/step.type.go:501-520 | the builder loop over sorted offsets is the splice, with the same errors |
| `Resolution.ResolveVariable` | types/step.type.go:466-520 | for any recorded offsets the result of splicing the sorted placeholders, with the same errors; a string that is one placeholder keeps an untyped value, an object declared as object and an array declared as array as they are, and shows and converts any other |
| `Resolution.ScanThenResolve` | types/step.type.go:476-522 | scanning and then resolving gives the reference value of the string |
| `LeafRules.WholePlaceholder` | types/step.type.go:476-500 | from the string to its value: a declared type wins over an inferred one, and decides whether the looked-up value stays native or is shown and converted |
| `LeafRules.MixedText` | types/step.type.go:501-522 | a placeholder with text around it becomes the text with the shown value, converted unless its type is textual or there is none |
| `LeafRules.PlainTextStays` | types/journey.validation.go:341-363 | text without `${` is left alone everywhere |
| `LeafRules.BadPlaceholderIsRefused` | types/journey.validation.go:341-363 | an unclosed `${`, or a body that is not prefix, dot and path, is refused |
| `LeafRules.StructuralPositions` | types/journey.validation.go:325-339 | the positions of placeholders that are refused: below a top-level `outcome`, below `outcome` in a `config`, and the type and name of nested steps |
| `LeafRules.StructuralIsRefused` | types/journey.validation.go:308-310 | there every placeholder is refused |
| `LeafRules.SkippedKeysStay` | types/journey.validation.go:282-285 | `vars` stays as it is at any depth, and the `steps` of a composite step at the root |
| `LeafRules.OtherKeysAreSubstituted` | types/journey.validation.go:282-293 | every other key is substituted |
| `StepConfig.UpdatedIsSubst` | types/step.type.go:413-460 | writing the resolved leaves into the tree is recursive substitution |
| `StepConfig.SubstNeedsGeneration` | types/journey.validation.go:279-323 | where generation fails, so does substitution |
| `StepConfig.SubstNeedsLeaves` | types/step.type.go:447-450 | where a leaf cannot be resolved, substitution fails |
| `StepConfig.KeySplits` | types/step.type.go:451 | a dotted property splits back into its path if and only if no key of the path has a dot |
| `StepConfig.DottedKeysCollide` | types/journey.validation.go:286-289 | with a dot inside a key two properties share one dotted path |
| `StepVariables.Generator.DiscoverVariables` | types/journey.validation.go:279-323 | records exactly one descriptor per string with placeholders outside skipped keys, and fails exactly on malformed strings and structural positions |
| `StepVariables.Generator.DiscoverString` | types/journey.validation.go:301-320 | the same for one string |
| `StepVariables.Generator.DiscoverObject` | types/journey.validation.go:281-293 | the same for an object, in any order of its keys |
| `StepVariables.Generator.DiscoverArray` | types/journey.validation.go:294-300 | the same for an array |
| `StepVariables.ExactIsOneToken` | types/journey.validation.go:154-162 | the exactness test recognises the strings that are one placeholder |
| `StepVariables.GenerateVariables` | types/journey.validation.go:102-152 | the generated `vars` describe every leaf with its declared, inferred or default type |
| `StepVariables.ResolveConfig` | types/step.type.go:413-460 | resolving generated `vars` gives the substituted configuration, or fails exactly when substitution does |
| `StepVariables.PrepareThenResolve` | types/step.type.go:413-460 | generating and then resolving equals recursive substitution over the configuration |
| `StaticEnv.OneResolverIsConsistent` | runtime_journey.go:234-236 | one resolver registered for both passes makes run time and static pass agree on every env placeholder, whatever it answers |
| `StaticEnv.StaticThenDynamic` | runtime_journey.go:205-232 | replaced text is read as expected if and only if no literal run of it contains `${`, and then both orders of resolution give the same text |
| `StaticEnv.SafeValuesAreStable` | runtime_journey.go:205-232 | non-empty values without `$` and `{` always satisfy that condition |
| `StaticEnv.EmptyValueCanOpen` | runtime_journey.go:224-226 | an empty value that turns `$` and `{ctx.b}` into a placeholder |
| `StaticEnv.ReplaceIsStatic` | runtime_journey.go:206-231 | the regular expression pass replaces exactly the env placeholders of the parsed string when bodies have no `{` |
| `StaticEnv.EnvFirstIsTransparent` | runtime_journey.go:205-232 | for such strings, unset values included: a missing value fails both ways, and otherwise, exactly when the text is read as expected, env first gives the text that resolving all at once gives |
| `StaticEnv.WeaveIsReplace` | runtime_journey.go:213-231 | copying between the matches and replacing env matches is the left-to-right replacement |
| `StaticEnv.ResolveStaticString` | runtime_journey.go:205-232 | no match leaves the string, one whole env match gives its native value, anything else the replaced text |
| `StaticEnv.BuildStatic` | runtime_journey.go:213-231 | the builder loop over the matches weaves text and values, and fails on the first missing one |
| `RuntimeConfig.DynamicLeafAgreesIff` | runtime_journey.go:164-173 | while a placeholder is left for run time, both orders fail together, and agree if and only if no empty env value has left that placeholder alone in the string with a native value its text does not convert back to |
| `RuntimeConfig.SafeValuesMakeNoWhole` | runtime_journey.go:224-226 | values that are not empty never do that |
| `RuntimeConfig.UnsetValueMakesWhole` | runtime_journey.go:224-226 | with `a` unset, `${env.a}${ctx.b}` is the text 7 or the number 7 |
| `RuntimeConfig.StaticLeafIsText` | runtime_journey.go:169-173 | when only env placeholders occur, the replaced text is final and no declared type is applied to it |
| `RuntimeConfig.EarlyEnvSkipsConversion` | runtime_journey.go:164-173 | such a string survives early replacement if and only if its type is textual, as no other conversion yields a string |
| `RuntimeConfig.NumberBecomesText` | runtime_journey.go:164-173 | an integer spelled `1${env.a}` that ends up as text |
| `RuntimeConfig.WholeLeafAgreesIff` | runtime_journey.go:210-212 | one whole env placeholder with a value free of `${` agrees in both orders if and only if the value keeps its native form under its type or converts back from its text |
| `RuntimeConfig.LeafAgreesIff` | runtime_journey.go:205-232 | all cases of one string together: both orders agree if and only if type and native form are kept |
| `RuntimeConfig.TreeAgreesIff` | runtime_journey.go:178-203 | over a whole configuration without `${` below skipped keys, env first gives what resolving all at once gives if and only if the two orders agree on every string that generation visits, or both fail, each on some visited string |
| `RuntimeConfig.ReadableTreeAgreesIff` | runtime_journey.go:178-203 | when every visited string is well formed and read as expected, that is so if and only if all of them keep type and native form, or both orders fail |
| `RuntimeConfig.ResolveStaticTree` | runtime_journey.go:178-203 | rewriting a tree string by string, in any order of keys, is the static tree, with the same failures |
| `RuntimeConfig.ResolveStaticObject` | runtime_journey.go:180-188 | the same for an object |
| `RuntimeConfig.ResolveStaticArray` | runtime_journey.go:189-197 | the same for an array |
| `RuntimeConfig.CompileThenResolve` | runtime_journey.go:151-176 | static replacement, generation of variables and run-time resolution together equal one substitution over the raw configuration, failures included, if and only if every visited string keeps type and native form, or both orders fail |
| `EnvMemo.EveryInterleavingIsStable` | runtime_journey.go:42-94 | over every interleaving, successful lookups of a path agree, and the resolver is neither in flight twice for a path nor called again after a success |
| `EnvMemo.AnswersAreCompletions` | runtime_journey.go:42-94 | over every interleaving, every answer repeats what a completed call of the resolver for that path returned before, failures included |
| `EnvMemo.LookupDecides` | runtime_journey.go:42-94 | the resolver is asked only if nothing is kept and nobody asks, and what it returns is told and, if it succeeds, kept |
| `RouteSpec.CaptureOfParameter` | steps/http-route-table.instance.go:362-368 | there is one capture per parameter, equal to the request segment at the parameter's position |
| `RouteAnswers.PathTakesIff` | steps/http-route-table.instance.go:613-637 | in terms of declared strings: a compiled path takes exactly the requests whose segments its `*`, `{name}`, literal and final `**` segments take |
| `RouteAnswers.HostTakesIff` | steps/http-route-table.instance.go:522-557 | `*` takes every host, a plain host only itself, `*.suffix` exactly the hosts with labels before the suffix |
| `RouteAnswers.ParameterIsBraced` | steps/http-route-table.instance.go:613-637 | a segment is a parameter exactly when it is a non-empty name in braces, and that is its name |
| `RouteAnswers.SegmentsOfJoined` | steps/http-route-table.instance.go:613-637 | paths and hosts are taken apart into the segments they were put together from |
| `RouteAnswers.TrimForgetsEnds` | steps/http-route-table.instance.go:613-637 | separators before and after do not matter, however many there are |
| `RouteAnswers.MatchBinds` | steps/http-route-table.instance.go:362-368 | a match binds each parameter name, and nothing else, to the segment at its last position; the wildcard is made of the segments `**` covers |
| `RouteTrie.MinBelowIsLeast` | steps/http-route-table.instance.go:680-684 | the recorded minimum is the least reference inserted at or below a node, and is absent exactly when nothing was |
| `RouteTrie.RefsAtSorted` | steps/http-route-table.instance.go:672-677 | method lists are strictly ascending when patterns arrive in declaration order |
| `RouteTrie.RouteTable.UpdateMinRef` | steps/http-route-table.instance.go:680-684 | the lesser of the two references is kept |
| `RouteTrie.RouteTable.VisitNode` | steps/http-route-table.instance.go:641-671 | the node exists afterwards and counts the pattern |
| `RouteTrie.RouteTable.InsertPath` | steps/http-route-table.instance.go:639-678 | every node holds the minimum and the method lists of all patterns inserted so far, the new one included |
| `RouteTrie.RouteTable.Register` | steps/http-route-table.instance.go:672-677 | the reference is added for each of the pattern's methods |
| `RouteTrie.RouteTable.MakeHostNodes` | steps/http-route-table.instance.go:522-557 | exactly the label suffixes of the host are added |
| `RouteTrie.RouteTable.Insert` | steps/http-route-table.instance.go:489-503 | inserting one pattern, in any order, keeps the table valid |
| `RouteBound.BelowSplits` | steps/http-route-table.instance.go:733-744 | the matches below a node are those below its literal, parameter and `*` children and those of its `**` child |
| `RouteBound.BelowAtEnd` | steps/http-route-table.instance.go:725-731 | at the end of the request only patterns ending at the node or in its `**` child match |
| `RouteBound.PruneIsSafe` | steps/http-route-table.instance.go:721-724 | a pruned subtree holds no match better than the best so far |
| `RouteBound.HeadIsLeast` | steps/http-route-table.instance.go:752-754 | the head of a method list is its least reference |
| `RouteBound.CandidateIsLeast` | steps/http-route-table.instance.go:747-759 | the candidate is the least reference at a node whose methods admit the verb |
| `RouteSearch.Search.SelectMatch` | steps/http-route-table.instance.go:747-766 | the shared best becomes the better of itself and the matches ending at the node, with that pattern's captures |
| `RouteSearch.Search.MatchNode` | steps/http-route-table.instance.go:721-745 | the shared best becomes the better of itself and all matches below the node |
| `RouteSearch.Search.MatchChild` | steps/http-route-table.instance.go:733-741 | the same along one edge |
| `RouteSearch.Search.MatchRest` | steps/http-route-table.instance.go:742-744 | the same for the `**` child, whose text joins the remaining segments |
| `RouteSearch.Search.MatchRoot` | steps/http-route-table.instance.go:699-702 | the same for one host pattern |
| `RouteSearch.Search.MatchHost` | steps/http-route-table.instance.go:699-719 | the same for all host patterns of a scheme; `*.suffix` needs a label before its suffix |
| `RouteSearch.ScanIsLeast` | steps/http-route-table.instance.go:340-374 | the linear scan finds the matching pattern with the least order, and none exactly when none matches |
| `RouteSearch.BestIsScan` | steps/http-route-table.instance.go:340-374 | the best of all matches is the scan's answer with that pattern's own captures |
| `RouteSearch.FindBest` | steps/http-route-table.instance.go:349-358 | the search over both scheme trees returns the scan's answer |
| `RouteSearch.MatchRequest` | steps/http-route-table.instance.go:340-374 | reference, parameters and wildcard returned are those of the pattern the scan finds, each name bound to its own segment, and none exactly when it finds none |
| `RouteCompile.CompilePath` | steps/http-route-table.instance.go:613-637 | refuses exactly patterns with a `**` before the end |
| `RouteCompile.NormalizeMethods` | steps/http-route-table.instance.go:768-791 | `*` alone if asked for or if nothing is left, else the distinct normalised names |
| `RouteCompile.VerbTakesIff` | steps/http-route-table.instance.go:747-791 | a route takes a verb exactly when it declares it, declares `*`, or declares no method |
| `RouteCompile.DeclaredBounded` | steps/http-route-table.instance.go:498-500 | compiled references ascend strictly in declaration order |
| `RouteCompile.DeclaredAre` | steps/http-route-table.instance.go:467-505 | the compiled patterns are exactly those of the declared URIs, each with the methods of its route and its position |
| `RouteCompile.UriTakesIff` | steps/http-route-table.instance.go:467-505 | a declared URI takes a request exactly when its scheme is the same or `*`, and its host, path and methods take the request's |
| `RouteCompile.NewTable` | steps/http-route-table.instance.go:313-329 | compilation succeeds exactly when every pattern is good, and the table then holds all patterns in declaration order |
| `RouteCompile.CompileRoute` | steps/http-route-table.instance.go:467-505 | one route adds its patterns in order |
| `RouteCompile.RouteRequest` | steps/http-route-table.instance.go:313-374 | from declared routes to the answer: the trie agrees with the linear scan for every route list and request, and the answer binds each name to its own segment |
| `Scheduler.NextKeepsFlight` | scheduler.go:312-332 | every step of every thread keeps single flight: at most one leader per id, `running` holds an id exactly while it has one, and followers wait on a call of their id |
| `SchedulerRuns.RunsAreSane` | scheduler.go:217-332 | in every history of cron, interval and manual runs and of Schedule calls, single flight holds, stored schedules keep their fixed fields and never count below their first count, a run works on a copy with runs left that is active only while the stored schedule is, and a Schedule call adds a job only for an active copy with runs left |
| `SchedulerBudget.NextKeepsCounted` | scheduler.go:121-310 | every step keeps run counts, starts and saves in agreement with the stored schedules, except a Schedule call that stores a copy older than a saved run |
| `SchedulerBudget.StraddlingMiscounts` | scheduler.go:129-141 | that step always leaves a wrong count |
| `SchedulerBudget.CountsAreRightIffClean` | scheduler.go:121-310 | at every moment of a history each stored count is the number of completed executions, if and only if no Schedule call of it stores its copy after a run was saved that it had not seen |
| `SchedulerBudget.BudgetIsKept` | scheduler.go:235-310 | in every such history the target starts at most as often as runs were left, the stored count is the number of completed executions, and a spent schedule is inactive with no next run |
| `SchedulerBudget.ExhaustedNeverRuns` | scheduler.go:252-254 | in every such history, once the budget is used up no later action starts the target |
| `SchedulerJobs.LastSaveUnschedules` | scheduler.go:296-308 | the save that spends the budget deactivates the schedule and its run goes on to unschedule it |
| `SchedulerJobs.NoLaterJobIff` | scheduler.go:104-147 | a schedule that is stored inactive and has no job has none in any later state if and only if no Schedule call has already found it worth a job and is still to add it |
| `SchedulerJobs.UnschedulingIsFinalIff` | scheduler.go:306-308 | from the moment a run unschedules its schedule, the schedule has no job in any later state if and only if it is then stored inactive and no Schedule call is still to add its job |
| `SchedulerJobs.EarlyJobRevives` | scheduler.go:121-133 | a Schedule call of a cron schedule adds its job and stores its copy between the last save of a run and its unscheduling: nobody looks ahead, the stored schedule is active again, and a later job is possible |
| `SchedulerJobs.LateJobRunsAgain` | scheduler.go:121-133 | the same call after the unscheduling: the target of a cron schedule starts once more than its budget allows, and its stored count has lost a run |
| `SchedulerJobs.LateJobIsLeftBehind` | scheduler.go:134-143 | for an interval whose copy has a next run time nothing is stored: the spent, inactive schedule keeps a job that no run will remove |
| `SchedulerCache.CacheIsLatest` | scheduler.go:271-275 | at every moment the cache answers with the value and time of the latest error-free run that published since the last Clear |
| `SchedulerCache.AlwaysLatestIffOwnKeys` | scheduler.go:408-441 | that holds in every history if and only if no schedule shares its cache key with one that can still run |
| `SchedulerCache.NulFreeRealmsOwnKeys` | scheduler.go:439-441 | realms without a NUL satisfy the condition |
| `SchedulerCache.NulRealmsCollide` | scheduler.go:439-441 | two pairs of realm and id with one key |
| `SchedulerGet.CallsCloseOnce` | scheduler.go:323-332 | no call is closed twice, in any history |
| `SchedulerGet.AnswersAreTheCallsResult` | scheduler.go:217-233 | leader and followers are answered with the result with which their call was closed before |
| `SchedulerGet.GetsAreTrue` | scheduler.go:334-352 | every value Get returns is a cached one within the age limit, the value of a run that finished during the call, or, when allowed and the refresh gave none, the value held at the second look |
| `SchedulerGet.SecondLookHolds` | scheduler.go:339-346 | the second look holds what the last publication or clear since the first left, and what the first held if there was none |
| `SchedulerGet.StaleAnswerIs` | scheduler.go:346-350 | every stale answer of every history is the value held when the call began, or that of the last publication between the looks |
| `SchedulerGet.LateValueIsReturnedAsStale` | scheduler.go:339-350 | a history in which it is not |
| `SchedulerResults.ClosedResultsAreTold` | scheduler.go:235-332 | in every history a call is closed with what its own run did: no schedule or a spent one was loaded, or its target returned this outcome after the run had started, and the run then saved this count |
| `SchedulerResults.AnswersAreTold` | scheduler.go:217-233 | so is everybody answered who waited for the call |
| `SchedulerResults.ValuesFromRunsAreReturned` | scheduler.go:346-352 | every value a Get takes from a run was returned without an error by the target of a saved run of that schedule |
| `SchedulerResults.WaitingGetIsAnswered` | scheduler.go:346-352 | a Get that waits for a run gets its value if it has one without an error, else the held one if that is allowed, else nothing |
| `SchedulerResults.GivenUpGetIsAnswered` | scheduler.go:346-352 | the same for a Get that is refused a refresh or cancelled |
| `SchedulerResults.RefreshRemembers` | scheduler.go:339-346 | a Get that goes on to refresh keeps what it was asked, when it began and what was held at the second look, as leader or as follower |
| `SchedulerResults.EndTells` | scheduler.go:323-332 | the end of a run closes its call, answers its leader and frees the id, and touches nothing stored |
| `SchedulerResults.WakeTells` | scheduler.go:217-233 | a follower that wakes is answered with the result of its call |
| `SchedulerResults.ReadDecides` | scheduler.go:334-345 | at every moment a Get takes the latest uncleared publication if it is within the age limit or none is set, and else goes on to refresh |
| `SchedulerResults.FreshValuesAreYoung` | scheduler.go:334-345 | no fresh value ever returned was older than the limit |
| `SchedulerResults.PublishDecides` | scheduler.go:271-275 | exactly the values returned without an error are published, at the time of the clock |
| `SchedulerResults.ClearForgets` | scheduler.go:362-369 | after a clear nothing is held |
| `SchedulerResults.SaveStores` | scheduler.go:277-308 | the save of a run field by field, and whether the run goes on to unschedule |
| `SchedulerResults.MarkStores` | scheduler.go:257-262 | before its target is called a run stores the copy it has loaded |
| `SchedulerResults.PrepareDecides` | scheduler.go:104-111 | a Schedule call removes the old job and goes on only with an active schedule that has runs left |
| `SchedulerResults.AddDecides` | scheduler.go:112-147 | it adds the job, and stores its copy for a cron expression that fires again and for an interval without a next run time |
| `CacheTotals.PutTotals` | cache/manager.go:478-487 | how storing an entry changes the totals over all categories |
| `CacheTotals.DropTotals` | cache/manager.go:316-321 | how removing one does |
| `CacheTotals.RecordsAreOwned` | cache/manager.go:77-82 | two persisted entries never share a record |
| `CacheTotals.PersistMatches` | cache/manager.go:253-271 | saving keeps records and persisted entries in one-to-one correspondence |
| `CacheTotals.RuntimeMatches` | cache/manager.go:291-296 | replacing by a process-local instance does, with its record deleted |
| `CacheTotals.DropMatches` | cache/manager.go:311-321 | removing an instance does |
| `CacheTotals.AdmittedFits` | cache/manager.go:449-459 | an entry is admitted exactly when its category stays within its limits, and too many instances are named before too many bytes |
| `CacheManager.JudgeIsRefusal` | cache/manager.go:449-459 | the check refuses exactly what would break a limit afterwards |
| `CacheManager.AllOrNothingIff` | cache/manager.go:332-340 | removal of a category runs to its end or stops before it begins, in every iteration order, if and only if no deletion fails or every one does |
| `CacheManager.RemovalCanStopMidway` | cache/manager.go:332-340 | a category of two entries of which one is taken off and the other is not |
| `CacheManager.Manager.constructor` | cache/manager.go:97-113 | an empty manager whose ledger is exact when there are no records |
| `CacheManager.Manager.CacheStats` | cache/manager.go:461-467 | the loop counts the entries and sums their sizes |
| `CacheManager.Manager.CheckLimits` | cache/manager.go:449-459 | the limit check over those statistics |
| `CacheManager.Manager.Store` | cache/manager.go:478-487 | the entry is stored and both counters move by the difference |
| `CacheManager.Manager.UpdateCacheInstance` | cache/manager.go:226-273 | the ledger stays exact and the categories within limits; each error exactly when it should, and then nothing changes |
| `CacheManager.Manager.DeleteRecord` | cache/manager.go:496-502 | a record that is already gone is no failure |
| `CacheManager.Manager.UpdateRuntimeCacheInstance` | cache/manager.go:278-298 | the same for a process-local instance, whose earlier record goes |
| `CacheManager.Manager.TakeOff` | cache/manager.go:316-321 | the entry leaves, and its category with the last one |
| `CacheManager.Manager.RemoveCacheInstance` | cache/manager.go:300-323 | the ledger stays exact; missing cache, missing instance and failing deletion change nothing |
| `CacheManager.Manager.RemoveCache` | cache/manager.go:325-343 | what is left after a failing deletion, and that the ledger is exact if and only if the removal ran to its end or never began |
| `CacheManager.Manager.TakeAllOff` | cache/manager.go:332-340 | the loop takes off the entries before the first failing deletion |
| `CacheManager.Manager.AddLoaded` | cache/manager.go:423-432 | a loaded record is counted as new, and its category stays within limits |
| `CacheManager.Manager.Load` | cache/manager.go:123-139 | after loading, the ledger is exact if and only if no two records are for one instance; with factories, built values and no limits loading succeeds |
| `CacheManager.LoadTwice` | cache/manager.go:123-139 | two records of one instance are loaded into an inexact ledger |
| `LdapPool.PoolSizes` | steps/ldap.client.go:149-159 | the effective sizes: ten connections by default, as many idle as open unless fewer are asked for, 1 <= idle <= open |
| `LdapPool.Pool.Acquire` | steps/ldap.client.go:297-340 | takes the first idle connection that has not expired, discarding those before it, or dials when there is room; the counter stays exact |
| `LdapPool.Pool.Release` | steps/ldap.client.go:342-352 | keeps a live connection when there is room, else closes it |
| `LdapPool.Pool.Discard` | steps/ldap.client.go:354-363 | the guard against a negative counter never fires |
| `LdapPoolRuns.NextKeepsLedger` | steps/ldap.client.go:297-363 | every step of every thread keeps `open` equal to dialing, held and idle connections and within `maxOpen` |
| `LdapPoolRuns.NextKeepsOwners` | steps/ldap.client.go:297-363 | no connection is ever in two hands, or in a hand and idle |
| `LdapPoolRuns.RunsAreExact` | steps/ldap.client.go:297-363 | both hold in every interleaving |
| `LdapPoolRuns.FullPoolServes` | steps/ldap.client.go:328-337 | while every connection that may exist does exist, no waiting thread is stranded |
| `LdapPoolRuns.WaitersStayServedIff` | steps/ldap.client.go:312-337 | a step keeps the pool full for its waiting threads if and only if it does not free a slot while somebody waits |
| `LdapPoolRuns.StepStrandsIff` | steps/ldap.client.go:312-337 | a step strands a thread if and only if the thread waits and the step gives back the last slot of the pool |
| `LdapPoolRuns.FailedDialStrandsWaiter` | steps/ldap.client.go:312-318 | after a failed dial a thread waits on with the pool empty |
| `LdapPoolRuns.AgeDecides` | steps/ldap.client.go:297-352 | an idle connection is used, and one given back kept, only while it is younger than the lifetime, if there is one |
| `LdapPoolRuns.IdleIsAQueue` | steps/ldap.client.go:297-352 | idle connections are taken in the order in which they were given back |
| `LdapPoolRuns.DialDecides` | steps/ldap.client.go:312-326 | without an idle connection a free slot is taken and dialed, else the thread waits; a failed dial gives the slot back |
| `LdapPoolRuns.CloseDecides` | steps/ldap.client.go:297-363 | a closed connection frees its slot; a thread that found it too old tries again |

## Left out

- REST handlers, the embedded UI, events, listeners and debug output.
- Token cryptography and encodings: signing and validation, and encryption and decryption, are opaque inverse functions.
- LDAP wire operations, HTTP clients, script execution, OIDC and JWT steps; ordinary steps are an arbitrary function of the contexts.
- Chain, AsyncExec and AsyncWait: a composite step is one opaque step for the engine, and generation of variables for its nested steps is not modelled; their `steps` key is skipped as in the program.
- JSON Schema validation, type inference by reflection, numeric parsing in conversions, `fmt.Sprint` and the dotted lookups of contexts: opaque functions.
- Cron parsing and next-run times: the next run time is an arbitrary value of the steps that store it.
- URI parsing, lower-casing, de-duplication and port removal of hosts, upstreams, rewrites, headers and policies of routes: the route model starts from scheme, host labels and path segments.
- Wall-clock expiry of stored states: a paused state may vanish at any time in the interleavings of `Submissions`.
- The expiry of a state and its temporary context do not survive a pause in the program and are not part of what `Session.PauseThenResume` compares; neither is the result of End.
- The compiled-journey cache keyed by revision (runtime_journey.go:104-137): a lookup table that adds no property of its own.
- Reconfiguring cache limits at run time (cache/manager.go:168-216): limits are fixed while a category is compared with them.
- Engine: entries that terminal steps leave in closedCtx under step ids, the props bindings, the tags and the client inputs are separate fields, so step ids never clash with other context keys; `props_context` is a literal of the step, not a placeholder; a nil result of End counts as no return value.
- Engine: journey ids without colons, non-empty step ids and terminal steps that request no input are assumed throughout (`Journey.WellFormed`); restoration of props further assumes that ordinary steps leave the props keys alone and that every journey some SubJourney step can call returns a value (`Calls.Quiet`; `SilentEnds` shows what happens otherwise).
- Pauses.LegsConserveProps, Pauses.PausedRunsRestoreProps, Pauses.SuspendedCallRestoresProps and WaitingCallers.ResumedCallerSeesProps: each resumed run must find the props slots as its pause left them; this fails exactly at the pauses `PropsSessions.PauseKeepsSlotsIff` names, as in `PropsSessions.FinishedCallsPropsComeBack`.
- Executor.Transaction.ExecuteJourney: states nothing about runs that never end; `Ticks.RunEndsInBoundedTime` bounds the turns of a run whose clock stops.
- Trie nodes of the route table and the update trie are addressed by their path from the root instead of by pointers; sharing of untouched branches with the original configuration is not visible in the model, where trees are values.
- StepVariables.PrepareThenResolve: keys on the way to a placeholder are non-empty and free of dots, which the dotted property paths need; the generated `vars` are kept beside the configuration instead of inside it.
- Scheduler: saves succeed and copy, the target does not panic, a Schedule call is given the stored schedule, its job and its save are one critical section, schedules are named by id, and nobody but runs and Schedule calls writes a stored schedule: edits and deletions through REST are left out. A cycle of schedules that refresh each other can block; nothing is claimed about progress.
- RuntimeConfig.ReadableTreeAgreesIff and RuntimeConfig.CompileThenResolve: placeholder bodies contain no `{`, which the regular expression needs; strings whose replaced text opens a new placeholder, env values that themselves contain `${`, and placeholders below skipped keys are not compared.
- Cache manager: a factory or resolver result is a parameter, and every method is one critical section.
