# Verification of the briefing, coding and delivery core

The service takes a task from a tracker, asks its author for missing fields in rounds of questions
(the briefing), waits for an authorised `/go`, and then plans, writes and checks code for each
repository and opens one Draft merge request per repository. This project models that core in Dafny
and proves what the service relies on.

- **Briefing** (`Briefing*.dfy`, `GoAuthorizer.dfy`, `Ids.dfy`, `AnswerHistory.dfy`). A committed
  database, transactions whose reads come from arbitrary earlier moments, and a commit that re-checks
  primary, foreign and unique keys and row versions and then applies everything or nothing.
  `BriefingRuns` lets any number of such transactions interleave and be cut off anywhere;
  `BriefingInvariant` proves an inductive invariant of all runs; `BriefingSafety` and
  `BriefingAnswers` draw the consequences; `BriefingLimits` and `BriefingOrder` show with concrete
  runs where they stop. `BriefingStore` is the handlers in their own form, objects changed step by
  step, proved to write exactly what the transaction functions say. No lock is used in any of these
  proofs.
- **Outbox and locks** (`Outbox.dfy`, `Locks.dfy`). Relays that may die between any two steps; token
  locks that expire.
- **Code graph** (`CodeGraph.dfy`). Loading the index and breadth-first search with early exit.
- **Coding and delivery** (`RepoPaths.dfy`, `Risk.dfy`, `SandboxIo.dfy`, `Coding.dfy`,
  `GitLabHost.dfy`, `ScopeBudget.dfy`, `Delivery*.dfy`). Bounded repair loops in which a language
  model and a check runner are arbitrary oracles (`Coding`); GitLab, where every call of a run meets
  whatever others have made of it since the call before (`GitLabHost`); the gates in front of a merge
  request (`Delivery`); the calls of any number of runs in any interleaving, with people at work in
  between (`DeliveryRuns`); when the line budget can be missed (`ScopeBudget`); small deliveries
  worked out (`DeliveryLimits`); every outcome and every call told from outside, exactly when
  (`DeliveryDecides`).

`dafny verify dfyconfig.toml` checks everything.

## What the proofs showed about the code

Where code and documentation differ, the model follows the code.

- Version checks alone give single start, and so does the unique index alone; with neither, one stale
  `/go` starts a task twice (`BriefingLimits.OneGuardIsEnough`).
- The step that enters READY_FOR_GO has looked at a card without gaps, but the stored card may have one
  already then: answers that leave the card as it was read write no task row, so nothing is checked
  against an intake committed meanwhile. That is the only way it happens
  (`BriefingSafety.EnteringReadyIsComplete`), and it does happen with every guard on
  (`BriefingLimits.ReadyOverStaleCard`).
- Afterwards a second intake overwrites the stored card before it looks at the session's state
  (app/orchestrator.py:391-414), and a `/go` is then accepted on an incomplete card
  (`BriefingLimits.ApprovedWithoutCard`). The card of a ready task is complete all the time exactly if
  neither happened (`BriefingLimits.ReadyCardIff`).
- `task.risk_level` is never assigned, so the stricter `/go` rule for high-risk tasks is never applied
  (`BriefingSafety.HighRiskNeverApplied`).
- A closed briefing is never opened anew, but what prevents it is the primary key `brf_{task_id}`, not
  the partial index on active sessions: an intake after closing is rolled back
  (`BriefingSafety.BriefedOnce`).
- Accepted answers are joined without an order (app/briefing_store.py:196-206). The order decides
  exactly if some field has two different accepted answers (`BriefingAnswers.OrderDecidesIff`). Over all
  runs a field is asked again only if it has no accepted answer or a blank one
  (`BriefingAnswers.AskedAgain`), so without blank replies the order never matters
  (`BriefingAnswers.NoBlankNoChoice`). A comment that ends with `A1:` and a blank is such a
  reply (app/answer_extractor.py:14-56), and then one and the same transaction can make the task ready or ask
  a third time (`BriefingOrder.OrderDecides`).
- What the checks ran on is the fork base as it was fetched, with the returned files. The branch equals
  it only if, when the commit comes, it agrees with that fetched tree on every file the plan does not
  write (`Delivery.LiftedBranchIff`). A new branch need not: the fork base can move between checkout and
  fork (`Delivery.NewBranchIff`, `DeliveryLimits.MovedBaseIsForked`). An old one can keep files of an
  earlier run (`DeliveryLimits.RerunKeepsOldFile`).
- Paths the plan deletes are neither removed from the checkout nor committed (`Delivery.DeletionsStay`,
  `DeliveryLimits.DeletedFileStays`).
- A lift is never taken back by the service. A later plan, even one its review rejects, and a repair,
  which nobody reviews, commit onto a request that stays ready (`DeliveryRuns.ReadyStaysReady`,
  `DeliveryLimits.RejectedWorkStaysReady`); `DeliveryRuns.StillAcceptedIff` says when the branch is still
  what was accepted.
- Looking for an open request and opening one are two calls. Two runs of one plan at once can both open
  one (`DeliveryLimits.TwoRunsTwoRequests`); `DeliveryRuns.OneOpenIff` says exactly when.
- The fix loop commits only its last batch. The branch equals the tree that passed exactly when the
  branch at the commit agrees with what the checkout held before that batch, outside its files; if nobody
  touched the branch meanwhile, exactly when the earlier batches bring nothing new
  (`Delivery.RepairedBranchIff`, `Coding.FixCommitCanMiss`).
- The fix loop, unlike the generation loop, does not ask whether any check ran. While checks can always
  report something, "verified" means that one passed (`Coding.RunnableIsEnough`); for a given check
  runner, some answers of the model make the loop say "verified" with nothing passed exactly if some
  reachable repair silences every check (`Coding.FixVerifiedWithoutPassIff`).
- A planned file longer than 1,000,000 bytes is not read and counts as empty, so replacing it is nearly free:
  a merge request can be lifted far over budget (`DeliveryLimits.UnreadFileIsFree`). For a plan that fits
  the budget at all, some answer slips through exactly if a planned file is that long
  (`ScopeBudget.BudgetCanBeMissedIff`).
- Only reading a check's output is bounded by the timeout. A process that closes its output and runs on
  passes late, or never ends (`SandboxIo.RunCheck`, `SandboxIo.PassesLate`).
- `_read_capped` sets its flag when the limit is reached, although its docstring says exceeded; a check
  whose output is exactly as long as the limit fails.
- `norm.startswith("..")` also refuses harmless names such as `..cache/x` (`RepoPaths.SafeIff`).
- Cancelling after approval marks the task row only: the session is closed, and the plan intention
  stays (`BriefingSafety.StartedForEver`).

## Assumptions

Queries of one transaction happen in order and see committed rows and their own writes; a flush holds
its row until commit, so a version check at commit is the same as one at flush. Task ids contain no
`#` (`Ids.IsTaskId`). Random lock tokens are fresh. Checks do not write to the checkout. A killed
process ends at once. Lower-casing is per ASCII character, blank means spaces, tabs and line ends. A
card field that is a list never equals an answer, which is a text. What a plan, an answer, a check, a
review, a diff count or a role lookup returns is a parameter and may be anything.

The GitLab semantics are those of app/clients/fakes.py, a branch holding what it was forked from with
its commits on top; each call is atomic. Forking a branch that exists leaves it as it is, and a second
request for a branch is opened if asked for; GitLab itself may refuse both, which here is the call that
raises. A call that raises has done nothing. Between two calls of a run others may do anything
(`GitLabHost.Remote`); a theorem that needs them to keep to some rule says so: `Polite` (numbers are
handed out in order and requests keep their branches), `Outside` (people and CI), `Steady` (nobody
makes the branch or its request between looking and acting).

## Model

| member | source | states |
|---|---|---|
| `BriefingFsm.TerminalIsFinal` | app/briefing_state_machine.py:44-94 | from a closed state no accepted transition leads out, except APPROVED to PLAN_GATE, once |
| `BriefingFsm.ApprovedNeedsGo` | app/briefing_state_machine.py:53-94 | every accepted path from NEW to APPROVED passes READY_FOR_GO and GO_AUTH_CHECK just before |
| `BriefingFsm.ReadyNeedsCheck` | app/briefing_state_machine.py:53-94 | READY_FOR_GO is entered only from COMPLETENESS_CHECK or from the authorisation check, so a path from NEW to it has passed a completeness check |
| `BriefingFsm.OpenCanBeApproved` | app/briefing_state_machine.py:53-94 | every open state is reachable from NEW and can still lead to APPROVED |
| `BriefingFsm.EnteredFrom` | app/briefing_state_machine.py:44-94 | the same relation read backwards: exactly from where each state can be entered |
| `BriefingFsm.TableHasCycle` | app/briefing_state_machine.py:53-68 | the edge table alone allows arbitrarily long briefings |
| `Ids.RoundsDiffer` | app/orchestrator.py:453 | different rounds get different `session:rN` strings, whatever the task id looks like |
| `Ids.QuestionsDiffer` | app/orchestrator.py:455 | different questions get different `round:qN` strings |
| `Ids.AnswersDiffer` | app/orchestrator.py:188 | answers to different questions or from different comments get different keys, for real task ids |
| `Ids.SessionsDiffer` | app/orchestrator.py:401 | the session key is an injective function of the task id |
| `Ids.LocksDiffer` | app/state.py:97-102 | task locks and briefing locks never share a key, and each key names one task |
| `Ids.ShownAs` | app/state.py:97-102 | what an answer key and the two lock names look like |
| `GoAuthorizer.MatchedRules` | app/go_authorizer.py:34-48 | collects exactly the rules that hold; an empty user matches none |
| `GoAuthorizer.Authorize` | app/go_authorizer.py:51-78 | decides as the specification function characterised by the next row |
| `GoAuthorizer.AuthorizedIff` | app/go_authorizer.py:51-78 | on the columns of the context: authorised exactly if the user is known and is a maintainer, the reviewer, the responsible user, the creator or an approver, and for high risk under the strict setting a maintainer or the reviewer; the recorded rule is the first of these that fits |
| `Briefing.MissingOfMeans` | app/intake.py:50-60 | no gap is reported exactly if every required field is present and not blank |
| `Briefing.GapsAre` | app/intake.py:40-60 | the gaps are exactly the fields the task type requires that say nothing, each spelled out, in the order of the form; complete exactly if there are none |
| `Briefing.QuestionsForMean` | app/orchestrator.py:449-455 | one blocking question per gap, numbered from 1 in order |
| `Briefing.NewAnswersMean` | app/orchestrator.py:184-195 | exactly one new answer row per accepted reply, with its text and next version, when no question repeats |
| `Briefing.MergedMeans` | app/orchestrator.py:478-481 | for each field the last accepted answer counts; a field without one keeps its value |
| `Briefing.IntakeDecides` | app/orchestrator.py:379-433 | a started briefing only gets its card replaced; otherwise its session is ready exactly if the card is complete, and a first round opens exactly if it is not; no event, intention or answer is written |
| `Briefing.IntakeStores` | app/orchestrator.py:379-396 | the task row afterwards, column by column: repository, reviewer and card from the request every time, the author with the first, the rest kept; a row that stays the same is not written |
| `Briefing.AnswersDecide` | app/orchestrator.py:459-498 | ready, blocked or one more round, each exactly when; the transaction raises exactly for a repeated question, or a further round with a card that does not load |
| `Briefing.AnswersAreIgnored` | app/orchestrator.py:167-183 | answers to another round, to a session that does not wait, or without a usable reply write nothing |
| `Briefing.AnswersWritten` | app/orchestrator.py:184-198 | the rows written with accepted answers: exactly the active answers of the answered questions are superseded, and no event or intention is written |
| `Briefing.AnswersWithoutTask` | app/orchestrator.py:471-476 | without a task row the session stays at its completeness check |
| `Briefing.GoDecides` | app/orchestrator.py:64-150 | on the rows: starts the task exactly if the event is new, nothing was authorised, the session is ready, and the user is known and is a maintainer, the reviewer or the author of the task row, or an approver, and for high risk under the strict setting a maintainer or the reviewer; says everything that is written, the recorded rule included |
| `Briefing.GoIsDecided` | app/orchestrator.py:103-128 | the decision on a command that is heard, in terms of the task row |
| `Briefing.GoIsTold` | app/orchestrator.py:64-102 | which answer a command gets that is not decided on |
| `Briefing.CancelDecides` | app/webhooks.py:266-275 | refused exactly for a closed session; otherwise closes the session and marks the task, and writes nothing else |
| `Briefing.ProgressDecides` | app/orchestrator.py:641-650 | changes the phase of the task row, if it is another one, and nothing else |
| `Briefing.RelayDecides` | app/briefing_store.py:268-274 | marks exactly the listed intentions sent and changes nothing else |
| `BriefingSchema.CommittedRows` | app/db/models.py:66-195 | row by row what a commit leaves: new rows, the written session and task row, marks, and everything else as it was |
| `BriefingStore.Store.Transition` | app/briefing_store.py:79-85 | moves the row if the table allows it, forgets the active round unless waiting, steps the version; otherwise refuses and changes nothing |
| `BriefingStore.Store.AddRound` | app/briefing_store.py:88-110 | the next round number, made active |
| `BriefingStore.Store.AddQuestion` | app/briefing_store.py:112-133 | one more blocking question under its key |
| `BriefingStore.Store.AddGoEvent` | app/briefing_store.py:214-242 | one more event under its id |
| `BriefingStore.Store.AddOutbox` | app/briefing_store.py:253-257 | one more pending intention |
| `BriefingStore.Store.RecordAnswer` | app/briefing_store.py:136-178 | inserts the next version and supersedes the active answer; refuses a taken key |
| `BriefingStore.MissingFields` | app/intake.py:50-60 | the loop finds exactly the gaps, in order |
| `BriefingStore.OpenRound` | app/orchestrator.py:436-456 | opens the next round with its questions and waits, never asking for a refused transition |
| `BriefingStore.IntakeTask` | app/orchestrator.py:379-433 | writes exactly what the intake transaction specifies, from the same reads |
| `BriefingStore.HandleGo` | app/orchestrator.py:43-150 | writes and answers exactly as the go transaction specifies; no requested transition is refused |
| `BriefingStore.CancelTask` | app/webhooks.py:266-275 | writes exactly what cancellation specifies; never refused for an open session |
| `BriefingStore.RecordAnswers` | app/orchestrator.py:184-195 | succeeds exactly if no question is answered twice, and then the rows are one per reply |
| `BriefingStore.AcceptedReplies` | app/answer_extractor.py:96-98 | keeps exactly the confident replies to questions of the round, in order |
| `BriefingStore.MergeAnswers` | app/orchestrator.py:478-481 | the loop computes the merged card |
| `BriefingStore.FinalizeRound` | app/orchestrator.py:459-498 | ready, blocked or one more round as specified; does nothing unless answers were just received |
| `BriefingStore.RunCommand` | app/worker.py:79-90 | answers and completeness check in one transaction write exactly what is specified, or the transaction raises |
| `BriefingInvariant.QuietKeeps` | app/orchestrator.py:382-396 | a commit that leaves sessions alone keeps the invariant |
| `BriefingInvariant.GoKeeps` | app/orchestrator.py:129-148 | an accepted /go keeps the invariant: one more event, one more intention, one newly approved session |
| `BriefingInvariant.IntakeCommit` | app/orchestrator.py:379-456 | a committed intake keeps the invariant |
| `BriefingInvariant.AnswerCommit` | app/orchestrator.py:153-200 | a committed answer transaction keeps the invariant |
| `BriefingInvariant.CancelCommit` | app/webhooks.py:266-275 | a committed cancellation keeps the invariant |
| `BriefingInvariant.FinalizedAdvances` | app/orchestrator.py:459-498 | every outcome of the completeness check moves the session on within its round budget |
| `BriefingInvariant.ActiveUnanswered` | app/briefing_store.py:180-186 | a question of the round being waited on at commit had no active answer at any earlier read |
| `BriefingInvariant.StepKeeps` | app/db/models.py:66-100 | every step of every transaction, committed or not, keeps the invariant and loses no row |
| `BriefingInvariant.RunIsGood` | app/db/models.py:66-195 | all states of all runs satisfy the invariant, and later states extend earlier ones |
| `BriefingSafety.SingleStart` | app/orchestrator.py:129-148 | in every state a task has as many plan intentions as authorised events, at most one, and exactly one when its session is approved |
| `BriefingSafety.StartedForEver` | app/orchestrator.py:79-100 | once started, the same event and intention are the only ones for ever |
| `BriefingSafety.OneSessionForEver` | app/orchestrator.py:398-412 | over a whole run a task has one session |
| `BriefingSafety.ClosedForEver` | app/briefing_store.py:71-77 | a closed session never changes, and unless approved its task never starts |
| `BriefingSafety.BriefedOnce` | app/orchestrator.py:398-412 | an intake that finds no open session of an already briefed task is rolled back |
| `BriefingSafety.IndexAlone` | app/db/models.py:188-195 | with the unique index and without version checks, at most one authorised event per session |
| `BriefingSafety.PlansAreAuthorized` | app/orchestrator.py:129-148 | whatever the guards, a task has as many plan intentions as authorised events |
| `BriefingSafety.IndexAloneStartsOnce` | app/db/models.py:188-195 | with the unique index alone, a task has at most one plan intention |
| `BriefingSafety.BriefingIsBounded` | app/orchestrator.py:489-498 | at most k rounds and 4k+3 transitions per session, with k = max(1, max_briefing_rounds), so its row changes at most that often |
| `BriefingSafety.SessionsKeepShape` | app/briefing_store.py:79-110 | committed sessions are in one of five states, wait on their newest round or on none, and own exactly rounds 1 to rounds_count |
| `BriefingSafety.RoundsAreNotReopened` | app/orchestrator.py:174-180 | a round once left is never waited on again |
| `BriefingSafety.AnswersGoToActiveRound` | app/orchestrator.py:167-198 | a new committed answer belongs to the round waited on when it committed |
| `BriefingSafety.OneAnswerForEver` | app/orchestrator.py:184-198 | a question gets at most one answer over a whole run, and it never changes |
| `BriefingSafety.AnswersCloseTheirRound` | app/orchestrator.py:195-198 | no answered question is in a round being waited on |
| `BriefingSafety.RepeatsIff` | app/orchestrator.py:182-188 | accepted replies answer some question twice exactly if an ordinal repeats among them |
| `BriefingSafety.RepeatChangesNothing` | app/orchestrator.py:184-195 | a batch with a repeated ordinal leaves the database as it was |
| `BriefingSafety.EnteringReadyIsComplete` | app/orchestrator.py:471-487 | the step into READY_FOR_GO evaluated a card with no gap; the stored card has one afterwards exactly if the step answered questions, left the card as read, and an incomplete one was stored meanwhile |
| `BriefingSafety.TasksHaveSessions` | app/orchestrator.py:380-412 | no task row without a session |
| `BriefingSafety.OpenedRoundAsksGaps` | app/orchestrator.py:436-456 | a round that opens asks for exactly the missing required fields, in order |
| `BriefingSafety.EnteringBlockedIsExhausted` | app/orchestrator.py:489-492 | a session is handed to a human only with its rounds used up and fields missing |
| `BriefingSafety.EnteringApprovedIsAuthorized` | app/orchestrator.py:103-148 | a session is approved only by a /go whose user is, by the task row it read, a maintainer, the reviewer, the author or an approver, and the event names that user |
| `BriefingSafety.HighRiskNeverApplied` | app/orchestrator.py:124-128 | no run records a risk level, so the high-risk rule never applies |
| `BriefingLimits.OneGuardIsEnough` | app/db/models.py:66-195 | at most one authorised event per session and one plan intention per task in all runs, if and only if version checks or the unique index are on |
| `BriefingLimits.StartsTwice` | app/orchestrator.py:64-150 | without both guards a concrete run starts a task twice |
| `BriefingLimits.CardStaysCompleteIff` | app/orchestrator.py:382-414 | in READY_FOR_GO a step that changes anything leaves a complete card exactly if an intake brought one, or there was no intake of the task and the card was complete |
| `BriefingLimits.ReadyCardIff` | app/orchestrator.py:382-414 | from entering READY_FOR_GO on, the card is complete all the time exactly if the entering step read no stale card and no incomplete intake was committed since |
| `BriefingLimits.ReadyOverStaleCard` | app/orchestrator.py:474-487 | a concrete run enters READY_FOR_GO over an incomplete stored card, under every configuration |
| `BriefingLimits.ApprovedWithoutCard` | app/orchestrator.py:382-414 | a concrete run approves a task whose stored card is incomplete |
| `BriefingAnswers.OrderDecidesIff` | app/orchestrator.py:477-482 | all listings of the accepted answers give the same card exactly if no field has two different ones |
| `BriefingAnswers.AcceptedAreAll` | app/briefing_store.py:196-206 | a committed answer transaction listed exactly the answers its session then has, with their texts and fields |
| `BriefingAnswers.AskedAgain` | app/orchestrator.py:477-497 | over all runs, a round asks for a field only if the session has no accepted answer to it, or a blank one |
| `BriefingAnswers.AnsweredOnce` | app/orchestrator.py:477-497 | over all runs, a session without blank replies to a field has at most one answer to it |
| `BriefingAnswers.NoBlankNoChoice` | app/orchestrator.py:477-482 | if a committed answer transaction lists no blank answer, its card does not depend on the order of the list |
| `BriefingOrder.OrderDecides` | app/orchestrator.py:471-498 | a concrete run with a blank first reply: listed one way the task becomes ready, the other way a third round opens |
| `AnswerHistory.Store.RecordAnswer` | app/briefing_store.py:136-178 | keeps the history good; refuses exactly unknown questions and taken keys |
| `AnswerHistory.Store.ActiveAnswer` | app/briefing_store.py:180-186 | an answer of the question that is not superseded, or none if there is none |
| `AnswerHistory.RecordKeeps` | app/briefing_store.py:151-159 | one more answer keeps versions consecutive and only the newest active |
| `AnswerHistory.VersionsAreOneToN` | app/briefing_store.py:136-178 | after any calls the versions of a question are exactly 1 to n and only n is active |
| `AnswerHistory.OpenMeansNeverAnswered` | app/briefing_store.py:287-304 | open questions are exactly the blocking, unskipped, never answered ones |
| `AnswerHistory.OpenInOrder` | app/briefing_store.py:287-304 | open questions come in the order of the listing |
| `AnswerHistory.RecordingCloses` | app/briefing_store.py:287-304 | recording an answer closes its question and no other |
| `Outbox.SentWereEnqueued` | app/worker.py:116-132 | with any relays and crashes, a sent row was queued, and every queued job is a committed row's |
| `Outbox.RunGrows` | app/worker.py:116-132 | rows are never lost, only their sent mark is ever set, and the queue only grows |
| `Outbox.Table.Drain` | app/worker.py:121-129 | queues the listed rows in order and marks exactly them sent |
| `Outbox.DrainIsPath` | app/worker.py:121-129 | an undisturbed drain is one possible way through the relay's steps |
| `Outbox.DrainsInOrder` | app/briefing_store.py:259-274 | k undisturbed drains queue the oldest 100k of n rows, oldest first, each once; none is left exactly if n <= 100k |
| `Outbox.ListingExists` | app/briefing_store.py:259-266 | the query for pending rows always has an answer |
| `Locks.StateStore.AcquireLock` | app/state.py:51-55 | on what reads find: given exactly if no unexpired lock is stored, and then stored until the time asked for has passed, 600 seconds if none is; other keys as before |
| `Locks.StateStore.ReleaseLock` | app/state.py:57-60 | on what reads find: true exactly if the key holds this token, and then it is stored at no time; otherwise every key is as before, and other keys always are |
| `Locks.StateStore.ForceRelease` | app/state.py:62-64 | removes that key whoever holds it, and no other |
| `Locks.OneHolder` | app/state.py:51-64 | two unexpired holders of a key only if one was removed by force |
| `Locks.StaleReleaseIsHarmless` | app/state.py:17-23 | a token whose lock has passed on removes nothing |
| `Locks.ReleasedIsGranted` | app/state.py:51-60 | over all runs: once a holder in time, not removed by force, has released, the next one to ask is granted the lock, however soon |
| `Locks.OneGoAtATime` | app/webhooks.py:62-88 | at most one unexpired /go section per task, whatever is cancelled meanwhile |
| `Locks.ForceBreaksExclusion` | app/state.py:62-64 | forced removal of a key does break exclusion on that key |
| `CodeGraph.IndexMeans` | app/clients/graph.py:56-62 | nodes are the usable entries, the last entry of an id gives its data, the first use of a name gives its id |
| `CodeGraph.IndexSays` | app/clients/graph.py:42-70 | on the records of the file: which ids are nodes, with which name and summary, which node a name means, and that two nodes are adjacent exactly if a record of `edges`, or of `links` if `edges` is empty, has them as its first given source and target in either order |
| `CodeGraph.ResolveMeans` | app/clients/graph.py:72-76 | a text means the node with that id, or else the first record with that name in any case, or nothing |
| `CodeGraph.GraphifyGraph.EnsureLoaded` | app/clients/graph.py:42-70 | loads once; afterwards the maps say what the records of the file say, as in `IndexSays`, and nothing without a file |
| `CodeGraph.GraphifyGraph.LoadEdges` | app/clients/graph.py:64-70 | nodes are adjacent exactly if some edge joins them, in either direction |
| `CodeGraph.UndirectedAndClosed` | app/clients/graph.py:64-70 | the adjacency map is symmetric and stays inside the nodes |
| `CodeGraph.FirstSightIsShortest` | app/clients/graph.py:114-126 | a node first seen while another is scanned has no shorter walk |
| `CodeGraph.ParentChain` | app/clients/graph.py:122-126 | following parents ends, and gives a walk as long as the depth |
| `CodeGraph.Search` | app/clients/graph.py:114-129 | empty exactly if the target is unreachable, otherwise a walk of least length; it ends |
| `CodeGraph.Route` | app/clients/graph.py:113-129 | the same for all pairs of nodes, spelled in display names |
| `CodeGraph.GraphifyGraph.Path` | app/clients/graph.py:107-129 | resolves both texts as in `ResolveMeans`; empty exactly if one means nothing or the target is unreachable, otherwise the names along a shortest walk |
| `RepoPaths.SafeIff` | app/context_engine.py:43-52 | accepted exactly if non-empty, relative, never above the root on its way, with no denied component and no leading `..` name |
| `RepoPaths.DeniedIff` | app/context_engine.py:34-40 | a component is denied exactly if, in lower case, it is one of the eight names, ends in one of the five suffixes or starts with `.env.` |
| `RepoPaths.JoinSplit` | app/context_engine.py:49 | the components of a path put together are the path |
| `RepoPaths.NormIsWalk` | app/context_engine.py:48 | normalisation computes where the path leads, and starts with `..` if that is above the root |
| `RepoPaths.NormDotsLead` | app/context_engine.py:48 | `..` survives normalisation only as a leading run |
| `RepoPaths.NormTwice` | app/context_engine.py:48 | normalising twice changes nothing |
| `RepoPaths.SameFileIff` | app/context_engine.py:43-52 | two safe paths name one file exactly if they normalise alike |
| `Contracts.ReposPartition` | app/contracts.py:157-166 | changed and context-only repositories are disjoint, without repeats, and together are all named ones |
| `Contracts.DistinctKeepsOrder` | app/contracts.py:157-161 | repositories are taken in the order in which they are first named |
| `Risk.ClassifyRisk` | app/risk.py:110-164 | the steps compute the join of the signals and the list of reasons; both flags hold exactly for high and blocked |
| `Risk.ScanTriggers` | app/risk.py:131-142 | raises the level exactly if a word occurs, and records each that does |
| `Risk.JoinIsLeast` | app/risk.py:167-168 | the level is the least one at or above every signal |
| `Risk.LevelIs` | app/risk.py:110-164 | each level exactly when, by the requester's hint, the security flag, the words that occur, the areas, the task type and the number of paths |
| `Risk.ReasonsAre` | app/risk.py:110-164 | exactly which reasons are recorded |
| `Risk.HaystackHas` | app/risk.py:99-107 | a word without blanks occurs in the text searched exactly if it occurs in the goal, the criteria, an area, a keyword or a path, in any case |
| `Risk.LevelNeverDrops` | app/risk.py:99-168 | more changed paths, a higher hint or the security flag never lower the level |
| `Risk.AutonomousIsSmall` | app/risk.py:150-159 | a low or medium level bounds the number of changed paths |
| `Coding.SelfCheckIff` | app/coding.py:46-63 | no issue exactly if the files are the planned ones, none blank, all paths safe |
| `Coding.SelfCheckReports` | app/coding.py:46-63 | exactly the issues there are: each kind names exactly the paths it is about |
| `Coding.SamePlanSameFiles` | app/coding.py:46-63 | two batches for one plan touch the same files, however their paths are spelled |
| `Coding.HidesIff` | app/coding.py:98-106 | a later batch hides an earlier one exactly if the earlier brings nothing new outside it |
| `Coding.LeftIsLast` | app/coding.py:98-106 | what a batch leaves in a file is the content of its last entry naming that file |
| `Coding.WritableMeans` | app/coding.py:98-106 | a batch can be written exactly if each entry is accepted on the tree the entries before it leave |
| `Coding.DeletionsArePlanned` | app/coding.py:129 | the deletions reported are the planned ones, in order |
| `Coding.Checkout.WriteFiles` | app/coding.py:98-106 | writes the safe paths in order, later spellings of a file over earlier ones |
| `Coding.Checkout.GenerateChanges` | app/coding.py:117-169 | the loop returns what the attempt-by-attempt function says and leaves its tree |
| `Coding.GeneratedEvidence` | app/coding.py:117-169 | without issues the checkout is the base with exactly the returned files, no check failed on that tree, and verified means one passed; with issues never verified |
| `Coding.GenerationFinds` | app/coding.py:117-169 | no issue exactly if some attempt within the limit covers the plan and fails no check on the base with its batch; then `iterations` and the files are those of the first such attempt; otherwise all attempts were made, with the last batch and the checks of the last covering one; an I/O error only where a covering batch cannot be written |
| `Coding.Checkout.RunFixLoop` | app/coding.py:191-233 | the loop returns what the attempt-by-attempt function says and leaves its tree |
| `Coding.FixedEvidence` | app/coding.py:210-233 | the repaired tree is the base with every written batch in order, and no check failed on it; exhaustion gives issues and no verification |
| `Coding.FixFinds` | app/coding.py:191-233 | a branch on which no check fails is left alone, verified exactly if one passed; otherwise repair ends with the first usable attempt after which no check fails, on top of the usable ones before it, or gives up after the last with the checks last seen |
| `Coding.FixCommitIff` | app/coding.py:191-233 | the returned files alone give that tree exactly if the earlier batches bring nothing new |
| `Coding.FixCommitCanMiss` | app/coding.py:210-226 | a concrete model and check: the repair passes in two attempts, and with the returned files alone the same check fails |
| `Coding.RunnableIsEnough` | app/coding.py:219-225 | while every run of the checks can report something, verified means that one passed |
| `Coding.FixVerifiedWithoutPassIff` | app/coding.py:191-233 | for a given check runner and file system, some answers give a verified result with nothing passed exactly if some repair reachable within the limit leaves every check refused or skipped |
| `Coding.MisledNeedsQuiet` | app/coding.py:191-233 | a given model gives such a result only where such a repair is reachable |
| `Coding.FixVerifiedCanMeanNothingPassed` | app/coding.py:222-225 | a concrete model and check: verified, with the one check refused |
| `Coding.WritesStayInside` | app/coding.py:98-106 | a batch that is written changes only files strictly below the root whose components are plain, allowed names |
| `SandboxIo.ReadCapped` | app/sandbox_exec.py:106-120 | the first `limit` bytes for every chunking; the flag is set exactly if a byte came and the limit was reached |
| `SandboxIo.RunCheck` | app/sandbox_exec.py:123-173 | which status exactly when, and when none: passed only in a confirmed sandbox, allowed, with output read in time and below the cap, and exit code 0; within the timeout exactly if the exit is |
| `SandboxIo.BaseNameMeans` | app/sandbox_exec.py:135 | the name looked up is what follows the last slash |
| `SandboxIo.PassesLate` | app/sandbox_exec.py:153-171 | for every timeout, a process that passes after it |
| `GitLabHost.GitLab.FindOpenMr` | app/clients/fakes.py:69-77 | the first open merge request of the branch, if any |
| `GitLabHost.GitLab.MarkMrReady` | app/clients/fakes.py:99-103 | lifts exactly the matching merge requests |
| `GitLabHost.GitLab.CreateBranch` | app/clients/fakes.py:56-58 | a new branch starts with the content of the branch it is forked from, an existing one keeps its own |
| `GitLabHost.GitLab.CommitFiles` | app/clients/fakes.py:60-67 | one commit, on top of what the branch holds |
| `GitLabHost.GitLab.CreateDraftMr` | app/clients/fakes.py:79-94 | one more merge request, open and a draft, with the next number |
| `Delivery.LiftIsEarned` | app/orchestrator.py:513-568 | whichever call of a run makes a merge request ready, it is that of the card's branch; all planned paths are safe and their level is low or medium; the returned files cover the plan, a check passed and none failed on the fetched fork base with them; the review, and the Red Team if a word calls it in, passed with no comment above moderate; the file count is within budget, and so is the line count against the fetched base if every planned file can be read |
| `Delivery.LiftIsOurs` | app/orchestrator.py:320-335 | no call of a run makes another merge request ready, whatever others do between the calls, and only after every gate agreed |
| `Delivery.GatesMean` | app/gates.py:19-45 | the gates raise or block exactly as the opinions say: a verdict other than passed or passed with notes, a major or worst comment, or no answer, from the review or from a Red Team that is called in |
| `Delivery.ReadyIff` | app/orchestrator.py:557-561 | a slice is lifted exactly if opinions approve, a check passed, and lines and files are within budget |
| `Delivery.PlanIsGated` | app/orchestrator.py:258-275 | a plan is usable exactly if there is one and all its paths are safe; its level is recomputed from its paths |
| `DeliveryDecides.LiftDecides` | app/orchestrator.py:546-568 | after a published slice: exactly one more call, the lift, if the slice is good and the call is answered, and the request of that number is then ready with its reviewer, the others as before; otherwise no more calls; an exception exactly if an opinion is missing or the lift raises |
| `DeliveryDecides.LiftedIff` | app/orchestrator.py:513-568 | a call of a run makes some merge request ready exactly if the slice is good, the lift is answered and its request is still a draft then |
| `DeliveryDecides.SliceDecides` | app/orchestrator.py:258-317 | each outcome of a slice exactly when, from the fetched base, the plan, the level of its paths and the coding run; GitLab is asked for nothing but by a slice that publishes |
| `DeliveryDecides.PublishDecides` | app/orchestrator.py:289-305 | which of fork, commit and request are made, in which order, meeting and leaving what; when publishing ends with a request, and with which; nothing after the call that raises |
| `DeliveryDecides.BranchDecides` | app/orchestrator.py:289-291 | forked exactly if missing when looked for; fails exactly if a call raises or there is nothing to fork from |
| `DeliveryDecides.RequestDecides` | app/orchestrator.py:296-305 | the first open request of the branch, or a new draft exactly if there is none |
| `DeliveryDecides.CommitMeans` | app/clients/fakes.py:60-67 | after a commit each file of the batch holds its last content, every other file and branch what it held |
| `DeliveryDecides.RepairDecides` | app/orchestrator.py:676-692 | each outcome of a repair exactly when; its one commit goes to the branch it fetched, with the files of the repair |
| `DeliveryDecides.PlanDecides` | app/orchestrator.py:622-639 | repositories in order, each from what the one before left, exactly until one ends in an exception |
| `Delivery.LiftedBranchIff` | app/orchestrator.py:289-294 | a merge request made ready, its branch left alone since the commit: the branch holds the verified tree exactly if, when the commit came, it agreed with the fetched fork base on every file the plan does not write |
| `Delivery.BranchIsVerifiedIff` | app/orchestrator.py:289-294 | a published slice has committed, and after the commit the branch is the tree the checks ran on exactly if the branch the commit met agreed with the tree fetched earlier on every file not written |
| `Delivery.NewBranchIff` | app/orchestrator.py:290-291 | for a branch this run forked, exactly if the fork base at the fork agreed with the one fetched earlier on every file not written |
| `Delivery.DeletionsStay` | app/orchestrator.py:282-294 | files the plan does not create or update, deleted ones among them, stay as they were in the checkout that is checked and on the branch |
| `Delivery.SliceEvidence` | app/orchestrator.py:258-317 | a slice that reaches a merge request carries the evidence of its coding run on the fetched tree |
| `Delivery.SliceLeavesDrafts` | app/orchestrator.py:289-305 | publishing forks, commits and opens a request at most once each; no merge request is changed, the one it opens is a draft, and the one it ends with is open |
| `Delivery.ScopeIsDiff` | app/scope.py:32-54 | when every planned file can be read, the lines counted are those of the diff against the fetched base |
| `DeliveryDecides.ScopeDecides` | app/scope.py:32-54 | lines against what was read, files and deletions counted; each exceeded limit is named, and within budget means none is |
| `DeliveryDecides.SliceScopeDecides` | app/orchestrator.py:277-287 | the scope of a published slice is measured against the fetched base, a planned file of more than 1,000,000 bytes counting as empty |
| `DeliveryDecides.LinesAreSummed` | app/scope.py:23-42 | the lines are the sum over files and deletions, however grouped |
| `Delivery.OnlyLinesCanExceed` | app/scope.py:32-54 | after the plan gate the file-count branch cannot fire |
| `ScopeBudget.BudgetCanBeMissedIff` | app/orchestrator.py:247-287 | for a plan with room in the budget and any diff by lines, some accepted answer is measured within budget and is over it exactly if a planned file is too long to be read |
| `Delivery.RepairedBranchIff` | app/orchestrator.py:676-692 | a repair makes one commit, and its branch is then the tree that passed exactly if the branch the commit met agreed with the checkout before the last batch outside that batch; untouched meanwhile, exactly if earlier batches bring nothing new |
| `DeliveryLimits.MovedBaseIsForked` | app/orchestrator.py:523-543 | a concrete card lifted on a new branch that holds a file pushed to the fork base after the checkout |
| `DeliveryLimits.RerunKeepsOldFile` | app/orchestrator.py:289-294 | a concrete card planned twice: lifted with checks on one file, while its branch keeps another from the first run |
| `DeliveryLimits.DeletedFileStays` | app/orchestrator.py:289-294 | a concrete plan that replaces a file by another is lifted, and its branch holds both |
| `DeliveryLimits.RejectedWorkStaysReady` | app/orchestrator.py:546-568 | a concrete second plan whose review fails: its commit is on the branch of a request that stays ready |
| `DeliveryLimits.TwoRunsTwoRequests` | app/orchestrator.py:296-305 | two interleaved runs of one plan leave two open requests for one branch, both ready |
| `DeliveryLimits.UnreadFileIsFree` | app/orchestrator.py:247-255 | a concrete delivery lifted with a million removed lines, counted as one |
| `DeliveryRuns.PlanOneRepoConfined` | app/orchestrator.py:513-543 | every call of one repository's run changes only that repository, and there is none unless it reaches a merge request or an exception after publishing began |
| `DeliveryRuns.PlanIsConfined` | app/orchestrator.py:622-639 | every call of a plan changes only repositories of the card, never a context-only one |
| `DeliveryRuns.RunIsPath` | app/orchestrator.py:513-568 | a run changes GitLab by its listed calls and nothing else, whatever relation the others in between keep to |
| `DeliveryRuns.RepairIsPath` | app/orchestrator.py:676-692 | a repair changes GitLab by one commit to its branch at most |
| `DeliveryRuns.PlanIsPath` | app/orchestrator.py:622-639 | a whole plan changes GitLab by the listed calls of its repositories' runs |
| `DeliveryRuns.InterleavedRunsKeep` | app/orchestrator.py:289-305 | however the calls of any number of runs interleave, with people deleting branches and closing or reopening requests in between: requests stay numbered as opened, every fork is from the fork base |
| `DeliveryRuns.OneOpenIff` | app/orchestrator.py:296-305 | however calls interleave, a branch never has two open requests exactly if none was opened while another of its branch was open |
| `DeliveryRuns.ForkedOnceUnlessDeleted` | app/orchestrator.py:289-291 | however calls interleave, a branch that nobody deletes is forked at most once, if no fork meets an existing branch |
| `DeliveryRuns.PlanOneRepoKeeps` | app/orchestrator.py:289-305 | wherever a call fails, a run that nobody gets in the way of forks only a missing branch, opens a request only if none is open, and keeps one open request per branch |
| `DeliveryRuns.PlanKeeps` | app/orchestrator.py:622-639 | the same for a whole plan |
| `DeliveryRuns.StillAcceptedIff` | app/orchestrator.py:292-294 | from a lift, or any call, on, the branch holds the same content all the time exactly if others left it alone and every later commit of any run brought nothing new |
| `DeliveryRuns.ReadyStaysReady` | app/orchestrator.py:320-335 | no call of the service makes a ready request a draft again |
| `Delivery.BranchFor` | app/orchestrator.py:289-291 | look for the branch and fork it if missing, as specified |
| `Delivery.RequestFor` | app/orchestrator.py:296-305 | the open merge request or a new one, as specified |
| `Delivery.PublishTo` | app/orchestrator.py:289-305 | branch, commit and request as specified, with others at work before each call, stopping at the call that raises |
| `Delivery.RunCodingSlice` | app/orchestrator.py:258-317 | the program over the GitLab object has exactly the specified effect and result |
| `Delivery.PlanRepo` | app/orchestrator.py:513-568 | slice and gates have exactly the specified effect and result |
| `Delivery.RunSelfFix` | app/orchestrator.py:658-692 | repair has exactly the specified effect and result |
| `Delivery.Execute` | app/orchestrator.py:622-639 | the loop over repositories, ended by an exception, has exactly the specified effect and results |

## Left out

- HTTP routing, tokens of webhooks, form and JSON parsing, metrics, logging and redaction: input and output around the core.
- The ranked, budgeted text of `GraphifyGraph.query` and `explain`: display only.
- Card fields other than those a briefing can fill are opaque, and whether a stored card loads is a parameter: coercion by the validation library is not part of this model.
- Extraction of answers by regular expression or language model: the extracted ordinal, text and confidence are parameters.
- The contents of the trigger word lists, which play no part in what is proved.
- `difflib`: the number of changed lines of two texts is a parameter.
- Reopening, expiry, skipping of questions and PLAN_GATE: the edges are in the table, but no handler takes them.
- `realpath`, symbolic links, empty directories, process groups and archives: a checkout is a map from component lists to contents, and a write may fail for any reason.
- A check command with unbalanced quotes raises, and a check may never end (`SandboxIo.RunCheck`); in the coding loops a run of the checks always reports.
- The task row's merge request number and source branch, set at the end of a plan; only its phase is modelled.
- The GitLab HTTP client, which asks for an update of every file; the model follows the protocol its fake implements.
- `BriefingStore.Store.AddRound`: a transaction opens at most one round, as all handlers do, so the store holds one new round and not a list.
- The session's snapshots of allowed users and required fields: written once, read by no handler.
- Notes and comments sent to the tracker, and that they are sent even when the transaction is rolled back later.
- Definition of done, preview, CI, repository classification and graph building: they add only simple members.
