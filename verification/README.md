# Mission Control backend: a verified model

This project models the parts of the backend whose correctness rests on state, order or interleaving, and proves what
the code promises about them. It is plain Dafny 4.11; `dafny verify dfyconfig.toml` checks all of it.

| files | what they model |
|---|---|
| `Models.dfy` | the rows shared by the task and approval modules |
| `TaskDependencies.dfy` | the dependency graph of a board: cycle search, validation, replacement of rows |
| `TaskWorkflow.dfy`, `WorkflowRules.dfy`, `WorkflowSafety.dfy` | task requests by users, agents and leads, the board gates and the reopening cascade; what an answer means for the rows; what every run of requests keeps |
| `TaskDeletion.dfy` | deleting a task with everything that refers to it |
| `ApprovalTaskLinks.dfy` | approvals, the tasks they cover, conflicts and counts |
| `ApprovalLocking.dfy`, `ApprovalSerial.dfy` | approval transactions that interleave statement by statement, with row locks; each commit compared with the handler run alone |
| `RetryQueue.dfy`, `QueueWorker.dfy` | the Redis list and scored set, dequeueing, retries, one worker |
| `QueueInterleaving.dfy` | many workers and crashes, one Redis command at a time |
| `Json.dfy`, `JsonPrefix.dfy` | a value parser for sections 2 to 7 of RFC 8259 and what it looks at |
| `JsonText.dfy`, `JsonGrammar.dfy` | the grammar of those sections from the writer's side, and that the parser agrees with it on every text |
| `SkillsIndex.dfy`, `StreamingJson.dfy`, `StreamingCuts.dfy`, `StreamingBreaks.dfy`, `StreamingChunks.dfy`, `StreamingReader.dfy` | the chunked reader of `skills_index.json`, compared with the whole text in every cut |
| `EventStream.dfy` | the polling task event stream and its bounded memory |
| `BoardAccess.dfy`, `BoardAccessService.dfy` | memberships, per-board grants, invites and the three forms of the access check |
| `Calendar.dfy`, `MetricsBuckets.dfy` | calendar buckets of the dashboard series |
| `AgentTokens.dfy` | unpadded base64url and agent token hashes (sections 3.2 and 5 of RFC 4648) |

Code that changes things step by step is a class or a method with loops, proved equal to a function on values; the
properties are lemmas about those functions. Tables are maps and sets, times are integers or reals. A rejected request
leaves the tables as they were, because the session rolls back (`backend/app/db/session.py:78-93`).

Where the code does not do what its names or a whole-text reading suggest, the model follows the code and the lemmas
say exactly when the expected property holds:

- A lead may make a task depend on unfinished work and leave it in progress (`backend/app/api/tasks.py:1986-1994`).
  `UpdateKeepsBlockedSafe` shows that this request, and no other, breaks the rule that blocked tasks wait in the inbox.
- `_skip_whitespace` returns as soon as it has read a chunk, white space or not
  (`backend/app/api/skills_marketplace.py:297-309`), and `_decode_value` takes the part of a number that has been read
  for the number (lines 311-326). So the reader can fail on a valid file. It never returns anything else than the entries
  of the text (`NeverWrong`). `ReadsExactly` gives the exact condition for every text and every cut: two skips have to
  reach each comma and each closing bracket, three a colon, four a brace behind a member, and no chunk may end in a
  member's number behind its first digit. `ReadAlikeExactly` gives the one for a text to be read the same in every cut.
  The program's own reads of 16 KiB are safe if no run of white space is longer and no number is cut (`ReadInChunks`);
  they do fail on valid files: on an empty array with two chunks of blanks in it (`ProgramFailsOnValidFile`), and on a
  number with the end of a chunk between its digits (`ProgramFailsOnCutNumber`).
- After a `skills` value that is no array the reader `continue`s without looking for the comma (line 417), so more
  members behind it are an error, and several `skills` arrays are concatenated although a dictionary keeps the last.
  `ReaderMatchesParse` states exactly for which documents reading and parsing agree; `ReaderKeepsShadowedEntries` is one
  on which they do not.
- An equal envelope that is scheduled between another worker's LPUSH and ZREM can be removed without another delivery
  (`LateRescheduleIsLost`). `LosesNoRescheduleExactly` says in which runs that happens: where such a worker neither
  crashes before its removal nor anybody pushes the envelope in time. Even in the other runs two schedulings may share
  one push (`ReschedulingCanShareAPush`).
- Deleting an agent sends its tasks in progress to the inbox without asking any gate
  (`backend/app/services/openclaw/provisioning_db.py:1824-1843`); `StepHoldsStatus` names it next to falling back
  because of an unfinished dependency as the only ways a task under a pending approval changes its status,
  `HoldBrokenExactly` says when it passes the gate, and `DeletingAgentPassesGate` is such a state.
- More than 2000 events with one time make the stream repeat itself (`CrowdIsSentTwice`); a stream never does if and only
  if no more than 2000 of the events from its start on share a time (`SendsOnceExactly`).
- `board_access_filter` and `list_accessible_board_ids` do not compare organizations; they agree with
  `has_board_access` exactly when nothing is granted elsewhere (`FormsAgreeExactly`), which every request preserves.
- An organization is meant to keep an owner (`backend/app/api/organizations.py:544-558`), but the role update does not
  look; `LastOwnerLostExactly` shows that this is the only request by which the last one is lost.

## Model

| member | source | states |
|---|---|---|
| TaskDependencies.CycleSearch.Dfs | backend/app/services/task_dependencies.py:116-127 | a search that answers no leaves the call stack as it was and has finished the node, and no finished node reaches a cycle; a yes means the first node of the call chain reaches one; terminates by the nodes not yet visited |
| TaskDependencies.HasCycle | backend/app/services/task_dependencies.py:111-129 | with both sets shared over all start nodes, true exactly when some start node reaches a directed cycle |
| TaskDependencies.DedupeUuidList | backend/app/services/task_dependencies.py:22-31 | first occurrences in order, nothing twice |
| TaskDependencies.DedupedIsFirst | backend/app/services/task_dependencies.py:22-31 | before each id of the result stands exactly what stands before its first occurrence |
| TaskDependencies.MissingIsExact | backend/app/services/task_dependencies.py:148-165 | the reported ids are exactly the requested ones that are no tasks of the board |
| TaskDependencies.BuildOverlay | backend/app/services/task_dependencies.py:169-185 | the row-by-row loop builds the board's graph with this task's edges replaced |
| TaskDependencies.OverlayIsStored | backend/app/services/task_dependencies.py:169-225 | the graph that is searched has the edges of the rows that would be stored |
| TaskDependencies.ValidateDependencyUpdate | backend/app/services/task_dependencies.py:132-193 | the self, missing and cycle rejections in that order, else the deduplicated ids |
| TaskDependencies.CycleRejectedExactly | backend/app/services/task_dependencies.py:169-193 | an otherwise valid edit is rejected for a cycle exactly when storing it would create one |
| TaskDependencies.DependencyTable.ReplaceTaskDependencies | backend/app/services/task_dependencies.py:196-225 | the task's rows become the validated ones, all others stay; a rejected edit changes nothing |
| TaskDependencies.ReplaceKeepsAcyclic | backend/app/services/task_dependencies.py:132-225 | an accepted replacement keeps every board's graph acyclic and within the board |
| TaskDependencies.CreateKeepsAcyclic | backend/app/api/tasks.py:1288-1326 | so does a new task with its dependencies |
| TaskDependencies.FewerRowsStayAcyclic | backend/app/api/tasks.py:1468-1476 | so does removing rows |
| TaskDependencies.SomeTaskCanProceed | backend/app/services/task_dependencies.py:76-82 | on an acyclic board with unfinished tasks, some unfinished task has no unfinished dependency |
| TaskWorkflow.Session.ApplyNonLeadAgentTaskRules | backend/app/api/tasks.py:2061-2141 | the non-lead agent path, assignment by assignment, rejects and changes the task as specified |
| TaskWorkflow.Session.EffectiveDependencies | backend/app/api/tasks.py:1829-1863 | the dependency part shared by leads and users: rows replaced, blockers of the new rows returned |
| TaskWorkflow.Session.ApplyAdminTaskRules | backend/app/api/tasks.py:2144-2214 | the user path: a blocked task is sent to the inbox whatever else was asked, or the request is refused |
| TaskWorkflow.Session.ApplyLeadTaskRules | backend/app/api/tasks.py:1969-2005 | the lead path: allowed fields, blockers, assignment, status |
| TaskWorkflow.Session.RunGates | backend/app/api/tasks.py:219-287 | the three board gates in the order of the source, the pending one through the conflict query |
| TaskWorkflow.Session.ReconcileDependents | backend/app/api/tasks.py:406-474 | the loop over dependents resets exactly the open direct dependents of a task that was done and no longer is |
| TaskWorkflow.Session.UpdateTask | backend/app/api/tasks.py:1366-1427 | one update of any actor with gates, comment check and cascade; a rejection restores the state |
| TaskWorkflow.Session.CheckUpdatedTask | backend/app/api/tasks.py:2318-2388 | the checks after the rules, first failure wins |
| TaskWorkflow.Session.CreateTask | backend/app/api/tasks.py:1271-1358 | a created task is blocked only in the inbox and unassigned; rows as validated |
| TaskWorkflow.Session.DeleteTask | backend/app/api/tasks.py:1430-1490 | deletion within the workflow state; the comments and dependency rows of all other tasks stay |
| TaskWorkflow.Session.DeleteAgent | backend/app/services/openclaw/provisioning_db.py:1824-1866 | the two task updates, the comments and the row of an agent: its work in progress goes to the inbox, its other tasks are unassigned |
| TaskWorkflow.QueriesIgnoreRows | backend/app/api/tasks.py:2318-2365 | gates and comment check read nothing that the dependency edit of the same request changes |
| WorkflowRules.ApprovedIs | backend/app/api/tasks.py:181-199 | an approval counts if it is of the board, approved, and names the task by link or task_id |
| WorkflowRules.PendingIs | backend/app/api/tasks.py:202-214 | so does a pending one for the conflict query |
| WorkflowRules.BlockersAre | backend/app/services/task_dependencies.py:46-82 | a blocker is a dependency row of the task on its board whose other end is no done task of the board |
| WorkflowRules.AcceptedMeans | backend/app/api/tasks.py:219-287 | an accepted update has met each rule that the rows put it under: write access, the flags of the board, an approved and no pending approval, the comment, an assignee who may be assigned |
| WorkflowRules.RefusedMeans | backend/app/api/tasks.py:2061-2214 | a refusal for the actor or the assignee names a rule that the request breaks, by the rows |
| WorkflowRules.GateMeans | backend/app/api/tasks.py:219-287 | so does a refusal by a gate: the flag is on, and there is no approved or a pending approval |
| WorkflowRules.CommentMeans | backend/app/api/tasks.py:297-321 | a comment is required only where the assignee has left none since the work began |
| WorkflowRules.BlockedMeans | backend/app/api/tasks.py:1829-1863 | the blockers a refusal lists are exactly the unfinished among the requested or the stored dependencies |
| WorkflowRules.CascadeIs | backend/app/api/tasks.py:406-474 | task by task, what the cascade changes and what it leaves |
| WorkflowRules.StoredMeans | backend/app/api/tasks.py:2318-2388 | the dependency rows and the comment an accepted update stores, nothing else |
| WorkflowRules.CreatedMeans | backend/app/api/tasks.py:1271-1358 | the fields and rows of a created task, on its board, in the inbox and unassigned if a dependency is unfinished |
| WorkflowRules.AgentDeletedMeans | backend/app/services/openclaw/provisioning_db.py:1824-1866 | what is left of an agent in tasks, comments and agents, row by row |
| WorkflowSafety.AcceptedRows | backend/app/api/tasks.py:1829-1863 | an accepted update of any actor keeps all graphs acyclic, touches only the task's own dependencies, and its rules saw the blockers it leaves |
| WorkflowSafety.CascadeSettles | backend/app/api/tasks.py:406-474 | after a reopening every direct dependent is done or in the inbox, unassigned, not started |
| WorkflowSafety.OnlyReopeningBlocks | backend/app/api/tasks.py:406-474 | an update blocks another task only by reopening a dependency of it, so one level of cascade is enough |
| WorkflowSafety.UpdateKeepsBlockedSafe | backend/app/api/tasks.py:1986-1997 | an accepted update keeps "blocked means done or settled in the inbox" if and only if it is not a lead's dependency edit that leaves an unsettled task blocked |
| WorkflowSafety.LeadEditCanLeaveTaskBlocked | backend/app/api/tasks.py:1986-1994 | that request exists: a concrete state, with its board and agents, and an accepted edit after which the rule fails |
| WorkflowSafety.CreateKeepsSafe | backend/app/api/tasks.py:1288-1326 | creation keeps acyclicity and the blocked-task rule |
| WorkflowSafety.DeleteKeepsSafe | backend/app/api/tasks.py:1430-1490 | deletion keeps both |
| WorkflowSafety.AgentDeleteKeepsSafe | backend/app/services/openclaw/provisioning_db.py:1824-1843 | deleting an agent keeps both, leaves every task's blockers as they were, nobody assigned to the agent, and its work in progress settled in the inbox |
| WorkflowSafety.PendingApprovalHoldsStatus | backend/app/api/tasks.py:262-287 | with the pending-approval gate on, a covered task whose status any update or cascade changes ends in the inbox with an unfinished dependency |
| WorkflowSafety.StepHoldsStatus | backend/app/api/tasks.py:262-287 | of all actions only an update, in that way, or the deletion of the agent that has the task in progress changes a covered task's status, and always to the inbox |
| WorkflowSafety.HoldBrokenExactly | backend/app/services/openclaw/provisioning_db.py:1824-1843 | a covered task changes its status without an unfinished dependency if and only if it is unblocked and the agent that has it in progress is deleted |
| WorkflowSafety.DeletingAgentPassesGate | backend/app/services/openclaw/provisioning_db.py:1824-1843 | a concrete state in which it does |
| WorkflowSafety.BecomingDone | backend/app/api/tasks.py:219-259 | a task becomes done only by its own update, with every dependency done, from review and with an approval row of its board that is approved and names it where the flags ask for them |
| WorkflowSafety.RunKeepsGraphSound | backend/app/services/task_dependencies.py:132-225 | every board's graph stays acyclic over every run of creates, updates and deletes of tasks and agents |
| WorkflowSafety.RunNeverStuck | backend/app/services/task_dependencies.py:76-82 | in every reachable state a board with unfinished work has an unblocked unfinished task |
| WorkflowSafety.RunKeepsBlockedSafe | backend/app/api/tasks.py:2181-2204 | over every run in which no such lead edit is accepted, every blocked task is done or settled in the inbox |
| ApprovalTaskLinks.RunConflictQuery | backend/app/services/approval_task_links.py:155-197 | each conflict query returns all rows of pending approvals that cover a requested task, oldest approval first |
| ApprovalTaskLinks.PendingApprovalConflictsByTask | backend/app/services/approval_task_links.py:144-205 | the keys are exactly the requested tasks that a non-excluded pending approval names, the values the one to report: with link rows before without, then the older, then the smaller id |
| ApprovalTaskLinks.CoveringSplits | backend/app/services/approval_task_links.py:208-274 | the approvals that cover a task are those linked to it and those that only name it, and none is both |
| ApprovalTaskLinks.CountsAdd | backend/app/services/approval_task_links.py:208-274 | so the linked and the legacy counts add up to the counts of all covering approvals, without double counting |
| ApprovalTaskLinks.AddLegacyCounts | backend/app/services/approval_task_links.py:266-273 | the legacy loop adds key by key |
| ApprovalTaskLinks.TaskCountsForBoard | backend/app/services/approval_task_links.py:208-274 | per task the number of all and of pending approvals of the board that name it by link or task_id, for exactly the named tasks of the filter |
| ApprovalTaskLinks.PendingCountIsConflict | backend/app/services/approval_task_links.py:144-274 | with at most one pending approval per task, a pending count is 1 exactly for tasks in conflict, else 0 |
| ApprovalTaskLinks.ApprovalStore.CreateApproval | backend/app/api/approvals.py:390-433 | refused exactly for a pending approval that names a task of task_ids, task_id or payload; else the approval names exactly these, linked in the order of first mention, the first being its own |
| ApprovalTaskLinks.ApprovalStore.UpdateApproval | backend/app/api/approvals.py:437-485 | reopening is refused exactly when another pending approval names one of its tasks; a pending approval set to pending is not checked; nothing but the status changes |
| ApprovalTaskLinks.CreateKeepsOnePending | backend/app/api/approvals.py:397-426 | a creation that is not refused keeps one pending approval per task |
| ApprovalTaskLinks.UpdateKeepsOnePending | backend/app/api/approvals.py:444-468 | so does an update |
| ApprovalLocking.LocksExclude | backend/app/services/approval_task_links.py:125-141 | a transaction about to write and one past its first query have no existing target in common |
| ApprovalLocking.LocksAreExclusive | backend/app/services/approval_task_links.py:125-141 | in every interleaving and at every statement no two transactions hold the row of one task, and from its last lock to its end a transaction holds the rows of all its existing targets |
| ApprovalLocking.CreateWriteKeepsInv | backend/app/api/approvals.py:397-426 | a commit that creates a pending approval keeps the invariant of all other transactions in flight |
| ApprovalLocking.ReopenWriteKeepsInv | backend/app/api/approvals.py:444-468 | so does a commit that reopens one |
| ApprovalLocking.StepKeepsInv | backend/app/api/approvals.py:169-190 | every statement of every transaction, and every resolution, keeps locks, queries and uniqueness consistent |
| ApprovalLocking.NeverTwoPending | backend/app/api/approvals.py:169-190 | in every interleaving no board has two committed pending approvals covering one task, by link or by task id |
| ApprovalLocking.SomeTransactionCanStep | backend/app/services/approval_task_links.py:125-141 | locking in ascending order never deadlocks: among unfinished transactions one can step |
| ApprovalLocking.WaitingForever | backend/app/services/approval_task_links.py:125-141 | following who waits for whom leads to ever higher task ids |
| ApprovalSerial.QueriesFindConflicts | backend/app/services/approval_task_links.py:155-197 | the two queries of a transaction together find exactly the pending approvals that name one of its tasks |
| ApprovalSerial.CommitIsSequential | backend/app/api/approvals.py:397-468 | in every interleaving the last statement of a transaction ends it and leaves the tables exactly as the handler would at that moment |
| ApprovalSerial.AloneIsSequential | backend/app/api/approvals.py:397-468 | a transaction that runs alone does come to an end, the one of the handler |
| TaskDeletion.Database.DeleteTaskAndRelatedRecords | backend/app/api/tasks.py:1430-1490 | what is left of every table after a deletion: all rows about other tasks with their values, and none about this one |
| TaskDeletion.Database.RepointApprovals | backend/app/api/tasks.py:1449-1467 | the loop gives each approval that named the task its next link, or removes it |
| TaskDeletion.DeleteCutsCoverage | backend/app/api/tasks.py:1449-1467 | an approval survives exactly when it covered something else or did not cover the task, loses just that task, and changes nothing but its own task, to the first link left |
| TaskDeletion.WithoutOne | backend/app/api/tasks.py:1443-1448 | the other links stay in their order |
| TaskDeletion.DeleteKeepsApprovalsSound | backend/app/api/tasks.py:1449-1467 | primary tasks stay among the links and one-pending-per-task is kept |
| TaskDeletion.DeleteLeavesNoReference | backend/app/api/tasks.py:1430-1490 | no approval, link or dependency row names the task |
| RetryQueue.PushedLast | backend/app/services/queue.py:74-77 | what one LPUSH pushes is delivered after everything waiting, in the order of its arguments |
| RetryQueue.DrainKeepsContents | backend/app/services/queue.py:55-84 | a drain neither loses nor copies an envelope and delivers what it moved behind what waited, by due time |
| RetryQueue.NothingDue | backend/app/services/queue.py:55-101 | if nothing is ready after a drain, nothing was due and the delay is the positive time to the earliest envelope, in spite of the cap of 100 |
| RetryQueue.RetryDelayBounds | backend/app/services/queue_worker.py:32-42 | a retry waits at least its base delay and at most a tenth more, at most 1.1 times the maximum |
| RetryQueue.BackoffGrows | backend/app/services/queue_worker.py:32-35 | later attempts never have a shorter base delay |
| RetryQueue.BackoffDoubles | backend/app/services/queue_worker.py:32-35 | the first retry waits the base time, each further one twice the one before, up to the maximum |
| RetryQueue.JitterRange | backend/app/services/queue_worker.py:39-42 | jitter ranges from nothing to a tenth of the base delay, or of the maximum if that is less |
| RetryQueue.SettleKeepsAccounts | backend/app/services/queue_worker.py:45-106 | whatever becomes of a task in hand, each accepted task is held, succeeded, dropped or unhandled, in exactly one place, with no more handler runs than max_retries allows |
| RetryQueue.AccountsMean | backend/app/services/queue_worker.py:45-106 | what the accounts say of each task: in one place, run at most until its attempts are used up, given up only after exactly that many runs |
| RetryQueue.SettleMovesEnvelope | backend/app/services/queue.py:231-274 | exactly the retried envelope goes back, and it is not there already |
| RetryQueue.SettleUsesAttempt | backend/app/services/queue.py:240-274 | every task handled lowers the total of attempts left |
| RetryQueue.AcceptKeepsAccounts | backend/app/services/queue.py:126-150 | accepting a new task keeps the accounts |
| QueueWorker.RedisQueue.DueItems | backend/app/services/queue.py:62-73 | at most 100 members, all due, earliest first, and nothing earlier left behind |
| QueueWorker.RedisQueue.DrainReadyScheduledTasks | backend/app/services/queue.py:55-101 | the batch moves from the scored set to the list; the delay is the time to the next score |
| QueueWorker.RedisQueue.ScheduleForLater | backend/app/services/queue.py:104-123 | the envelope is due when its delay is over |
| QueueWorker.RedisQueue.EnqueueTask | backend/app/services/queue.py:126-150 | the envelope is last in line |
| QueueWorker.RedisQueue.RequeueIfFailed | backend/app/services/queue.py:240-274 | requeued exactly while attempts are below the retries, later or at once, with one attempt more |
| QueueWorker.RedisQueue.DequeueBlocking | backend/app/services/queue.py:177-199 | waits for ever exactly if the caller set no timeout, nothing is scheduled and nobody pushes; else ends by the earliest due time and the caller's timeout, takes what waited first, else the earliest due, and loses nothing |
| QueueWorker.RedisQueue.DequeueTask | backend/app/services/queue.py:169-199 | the same with block; without, a pop that never waits, and a drain if it finds nothing |
| QueueWorker.DrainedFirst | backend/app/services/queue.py:55-84 | after a drain the head of the line is what waited longest, or the earliest due |
| QueueWorker.Worker.Dispatch | backend/app/services/queue_worker.py:80-106 | success leaves the queue alone; failure puts the next attempt back with its delay or drops it |
| QueueWorker.Worker.Handle | backend/app/services/queue_worker.py:69-106 | a task in hand is settled in queue and accounts at once; a retry comes back with its delay |
| QueueWorker.Worker.TakeNext | backend/app/services/queue.py:169-199 | a dequeue during which somebody may push: the task taken is accounted for, and no other is touched |
| QueueWorker.Worker.Round | backend/app/services/queue_worker.py:45-110 | a round that finds nothing finds everything handled that was ready, or with block due, at its start |
| QueueWorker.Worker.FlushQueue | backend/app/services/queue_worker.py:45-110 | while others push tasks before and during its dequeues it ends, or waits on an empty queue when nobody comes any more; then every task that was ready, and with block every one that was due, has been handled; the runs are exactly those the accounts gained, at most as many as attempts were left or came in; successes are counted and every task accepted stays accounted for |
| QueueWorker.SettleTask | backend/app/services/queue_worker.py:45-106 | queue, hand and accounts agree before and after each task |
| QueueInterleaving.CommandsMean | backend/app/services/queue.py:55-84 | what each command does to the list, the scored set and the batch of a worker |
| QueueInterleaving.StepKeepsInv | backend/app/services/queue.py:55-84 | each Redis command of each worker, and each crash, keeps every pushed envelope delivered and every scheduled one scheduled or pushed |
| QueueInterleaving.DrainingLosesNothing | backend/app/services/queue.py:64-84 | over every run of any workers and crashes, what was ever scheduled is scheduled, ready or popped |
| QueueInterleaving.EveryScheduledIsKept | backend/app/services/queue.py:64-84 | in terms of the commands: the envelope of every ZADD of the run is in the scored set, on the list or popped |
| QueueInterleaving.LeavesOnlyAfterPush | backend/app/services/queue.py:74-77 | only a ZREM by a worker that has pushed the envelope takes it out of the scored set |
| QueueInterleaving.LosesNoRescheduleExactly | backend/app/services/queue.py:64-84 | over every run of any workers and crashes: an envelope leaves the scored set only once it has been pushed since it was last scheduled, if and only if each one scheduled while a worker is about to remove it is saved from that worker, by its crash or by anybody's push of the envelope before its removal |
| QueueInterleaving.UnpushedStaysScheduled | backend/app/services/queue.py:64-84 | in the simple case that nothing is scheduled between a push and a removal of it, what has not been pushed since it was last scheduled is scheduled and nobody is about to remove it |
| QueueInterleaving.NoLateIsNotLossy | backend/app/services/queue.py:64-84 | that simple case is one of the runs that lose nothing |
| QueueInterleaving.LeavesPushedSinceScheduled | backend/app/services/queue.py:74-77 | step by step: in a run that meets that condition, what leaves the scored set has been pushed since it was last scheduled |
| QueueInterleaving.LateRescheduleIsLost | backend/app/services/queue.py:74-77 | a run that does not: from the empty queue, a pending removal takes the new scheduling without a push |
| QueueInterleaving.ReschedulingCanShareAPush | backend/app/services/queue.py:64-84 | even in the simple case two schedulings can end in one push: a run in which the second only moves the due time of an envelope already read |
| QueueInterleaving.UninterruptedDrain | backend/app/services/queue.py:55-101 | the three commands in a row are the drain of the one-worker model |
| Json.ValueStable | backend/app/api/skills_marketplace.py:311-326 | a value parsed in a prefix of a text is the value of the text, for numbers once a delimiter follows |
| Json.StringBodyStable | backend/app/api/skills_marketplace.py:311-326 | a closed string, surrogate escapes included, is not changed by more text |
| JsonText.WrittenIsParsed | backend/app/api/skills_marketplace.py:311-326 | every value, in whatever spelling of escapes, numbers and white space, is parsed as that value |
| JsonGrammar.ParsesExactly | backend/app/api/skills_marketplace.py:311-326 | a text is parsed as a value if and only if it is one of the ways to write it |
| JsonGrammar.EveryValueIsWritten | backend/app/api/skills_marketplace.py:311-326 | every value of code points and number literals has a text |
| SkillsIndex.SpacesExactly | backend/app/api/skills_marketplace.py:297-309 | white space is the 29 code points of `str.isspace` |
| SkillsIndex.ElementsScan | backend/app/api/skills_marketplace.py:356-376 | a valid array yields all its elements if they are objects, else a failure |
| SkillsIndex.MembersScan | backend/app/api/skills_marketplace.py:378-431 | the members of a valid object are scanned as their parsed values say |
| SkillsIndex.DocumentScan | backend/app/api/skills_marketplace.py:341-431 | on valid JSON the scan's result is a function of the parsed document |
| SkillsIndex.MembersAgree | backend/app/api/skills_marketplace.py:259-268 | reading and dictionary lookup agree exactly if all but the last `skills` member are empty arrays and the last is an array of objects, or no array and the very last member |
| SkillsIndex.ReaderMatchesParse | backend/app/api/skills_marketplace.py:259-268 | the reader's entries are those collected from the parsed document exactly for arrays of objects and such objects |
| SkillsIndex.ReaderKeepsShadowedEntries | backend/app/api/skills_marketplace.py:259-268 | a document with two `skills` arrays of which reading keeps the first and a dictionary the last |
| StreamingJson.SkipExact | backend/app/api/skills_marketplace.py:297-309 | a skip reaches the next character that counts only if it had been read, else the start of what it reads |
| StreamingJson.LookAheadExact | backend/app/api/skills_marketplace.py:291-309 | a skip and a peek reach the next character that counts exactly if no blank chunk is followed by more white space |
| StreamingJson.DecodeAgrees | backend/app/api/skills_marketplace.py:311-326 | in any cut at all a decode yields the whole text's value, or fails where there is none; of a bare number it yields what had been read of it; it terminates |
| StreamingJson.ShortBlanksGiveGoodCut | backend/app/api/skills_marketplace.py:281-289 | reads of a fixed size cut well if no run of white space is longer than that |
| JsonPrefix.ValueInPrefix | backend/app/api/skills_marketplace.py:311-326 | a value of the whole text is the same value as soon as its last character has been read |
| StreamingCuts.LookAheadIs | backend/app/api/skills_marketplace.py:291-309 | where a look-ahead lands and what it has read, for every state and cut |
| StreamingCuts.DecodeIs | backend/app/api/skills_marketplace.py:311-326 | exactly what a decode yields and has read: the value, nothing, or the part of a number in front of a chunk end |
| StreamingCuts.ColonExact | backend/app/api/skills_marketplace.py:394-399 | the colon is found exactly if the text has one that three skips reach |
| StreamingCuts.ArrayExact | backend/app/api/skills_marketplace.py:356-376 | in any state and any cut the array loop returns what the scan of the text finds if the reads made on the way suffice, else it fails |
| StreamingCuts.ObjectExact | backend/app/api/skills_marketplace.py:378-431 | the same for the object loop, with arrays taken for other values and numbers cut in two |
| StreamingCuts.ReadsExactly | backend/app/api/skills_marketplace.py:341-431 | for every text and every cut the result of the reader, entries or failure, by the scan of the text and the reads made along its tokens |
| StreamingCuts.NeverWrong | backend/app/api/skills_marketplace.py:341-431 | for every cut of every text: the text's entries or a failure, and a failure if the text is malformed |
| StreamingBreaks.ReadAlikeExactly | backend/app/api/skills_marketplace.py:297-431 | a well-formed text is read the same in every cut if and only if it has no break: two or more blanks before a comma or closing bracket, three before a colon or the beginning, a number of more than one digit, and the few cases of `SkillsBreak` and `AfterBreak` |
| StreamingBreaks.BreakFails | backend/app/api/skills_marketplace.py:297-309 | the break found in a text is a cut of it in which the reader fails |
| StreamingBreaks.SmallestBreak | backend/app/api/skills_marketplace.py:297-309 | well-formed texts with a break exist: `[  ]` is one |
| StreamingChunks.BlankArrayExactly | backend/app/api/skills_marketplace.py:281-309 | in reads of a fixed size, an array of nothing but white space is read exactly if that is shorter than two reads |
| StreamingChunks.ProgramFailsOnValidFile | backend/app/api/skills_marketplace.py:56-56 | the program's own reads fail on a file that is valid JSON, an array without elements |
| StreamingChunks.ProgramFailsOnCutNumber | backend/app/api/skills_marketplace.py:56-56 | and on one with a number across the end of the first chunk |
| StreamingChunks.ReadingIgnoresTheCut | backend/app/api/skills_marketplace.py:341-431 | in every good cut that keeps the numbers whole the reader returns what the text holds, and fails exactly where it is malformed |
| StreamingChunks.GoodCutsAgree | backend/app/api/skills_marketplace.py:341-431 | two such cuts of one text give the same entries or the same failure |
| StreamingChunks.ReadsValidDocument | backend/app/api/skills_marketplace.py:341-431 | on valid JSON, in every cut: the entries of the whole-text parse exactly for the documents of `ReaderMatchesParse` and sufficient reads, those of `DocumentEntries` or a failure for all |
| StreamingChunks.ReadsWrittenDocument | backend/app/api/skills_marketplace.py:341-431 | a document in whatever spelling and cut is read as the entries of the value that is written, or fails |
| StreamingChunks.SkillsIsSpelled | backend/app/api/skills_marketplace.py:401-401 | the key is the text `skills` |
| StreamingChunks.NumberFreeIsKept | backend/app/api/skills_marketplace.py:341-431 | a valid object without number members has no number that a cut could break |
| StreamingChunks.ReadInChunks | backend/app/api/skills_marketplace.py:56-56 | the chunk size of the program reads every text whose runs of white space are no longer than a chunk and whose member numbers no chunk ends in |
| StreamingReader.StreamingJsonReader.FillBuffer | backend/app/api/skills_marketplace.py:281-289 | one read appended to the buffer, or the end noted |
| StreamingReader.StreamingJsonReader.SkipWhitespace | backend/app/api/skills_marketplace.py:297-309 | the fields after a skip |
| StreamingReader.StreamingJsonReader.Peek | backend/app/api/skills_marketplace.py:291-295 | the character under the position; nothing only at the end of the file |
| StreamingReader.StreamingJsonReader.DecodeValue | backend/app/api/skills_marketplace.py:311-326 | the retry loop terminates with the value, or fails when the file has ended |
| StreamingReader.StreamingJsonReader.ConsumeChar | backend/app/api/skills_marketplace.py:328-339 | moves over the expected character or fails |
| StreamingReader.StreamingJsonReader.ReadArrayValues | backend/app/api/skills_marketplace.py:356-376 | the loop collects the array's entries in order or fails |
| StreamingReader.StreamingJsonReader.ReadSkillsFromObject | backend/app/api/skills_marketplace.py:378-431 | the loop collects the entries of all `skills` members in order or fails |
| StreamingReader.StreamingJsonReader.ReadTopLevelEntries | backend/app/api/skills_marketplace.py:341-354 | a fresh reader returns the entries of the file or fails, and always ends; what the entries are is said by `ReadsExactly`, `ReadsWrittenDocument` and `ParsesExactly` |
| EventStream.SeenRemembers | backend/app/api/tasks.py:1201-1209 | each row keeps `seen_ids` equal to `seen_queue`, the last min(2000, n) ids sent, and `last_seen` the latest time |
| EventStream.LatestAreRemembered | backend/app/api/tasks.py:1201-1209 | events of the latest time are still remembered if no more than 2000 share it |
| EventStream.StreamSendsOnce | backend/app/api/tasks.py:1177-1220 | if no more than 2000 events from the start on share a time, no run of polls sends one twice, and they are sent in order of time |
| EventStream.SendsOnceExactly | backend/app/api/tasks.py:1177-1220 | no run of polls over given events sends one twice if and only if no more than 2000 of those from the start on share a time |
| EventStream.VisibleIsSent | backend/app/api/tasks.py:1177-1220 | an event that a poll finds visible before a later one has been sent has been sent when the poll is over |
| EventStream.CrowdIsSentTwice | backend/app/api/tasks.py:1201-1209 | of any larger crowd at one time two polls send an event twice |
| EventStream.TaskEventGenerator.Poll | backend/app/api/tasks.py:1201-1219 | one poll updates the fields row by row as specified and yields what it adds to the history |
| BoardAccess.FormsAgreeExactly | backend/app/services/organizations.py:366-477 | the three forms of the check agree for a member and mode exactly if the member has an all-boards flag for it or every granting row is for a board of the own organization |
| BoardAccess.FormsAlwaysAgree | backend/app/services/organizations.py:366-477 | after any requests they agree for every member and both modes |
| BoardAccess.StepKeepsAccess | backend/app/api/organizations.py:505-518 | every accepted request keeps every member row within the member's organization |
| BoardAccess.StepKeepsOffers | backend/app/api/organizations.py:646-662 | and every invite row within the invite's organization, with rows for scoped invites only |
| BoardAccess.ApplyingInviteIsUnion | backend/app/services/organizations.py:563-625 | applying an invite gives exactly the union of old access and invite grant, in both modes, and the higher of the two roles |
| BoardAccess.ApplyingInviteIsLocal | backend/app/services/organizations.py:563-625 | nobody else's access changes |
| BoardAccess.AcceptingInviteGrantsIt | backend/app/services/organizations.py:187-237 | a new member has exactly what the invite grants |
| BoardAccess.UpdateIsExact | backend/app/services/organizations.py:480-514 | an access update leaves exactly the access it names |
| BoardAccess.AccessListsAccepted | backend/app/api/organizations.py:492-518 | an access list is accepted exactly if each board it names is one of the organization's and, where rows are stored, none is named twice |
| BoardAccess.RemovalAccepted | backend/app/api/organizations.py:525-558 | a removal is accepted exactly for another user of the organization, and of an owner by an owner only; the refusal for the last owner is never reached |
| BoardAccess.RevocationAccepted | backend/app/api/organizations.py:668-687 | exactly an invite of the organization is revoked, and no other goes |
| BoardAccess.LastOwnerLostExactly | backend/app/api/organizations.py:469-488 | false as the code stands that an organization keeps an owner: it loses its last one exactly by a role update of that owner to another role |
| BoardAccess.OwnerCanBeLost | backend/app/api/organizations.py:469-488 | a run of two requests that leaves a provisioned organization without an owner |
| BoardAccess.ProvisionedOwnsAll | backend/app/services/organizations.py:303-316 | a provisioned member owns the organization and sees and writes exactly its boards |
| BoardAccess.RequestsAreLocal | backend/app/api/organizations.py:492-730 | no request changes the access of a member it is not about, on any board that stays |
| BoardAccess.OtherInvitesStay | backend/app/api/organizations.py:609-730 | nor what another invite grants, or whether it is accepted |
| BoardAccess.InviteIsUsedOnce | backend/app/api/organizations.py:690-730 | over any requests that do not revoke it, an accepted invite is not accepted again |
| BoardAccessService.OrganizationTables.HasAccess | backend/app/services/organizations.py:366-389 | the check on the tables, early returns included |
| BoardAccessService.OrganizationTables.AcceptInvite | backend/app/services/organizations.py:187-237 | membership, copied rows and the accepted mark |
| BoardAccessService.OrganizationTables.ApplyInviteToMember | backend/app/services/organizations.py:563-625 | the merge loop widens row by row and touches no other |
| BoardAccessService.OrganizationTables.ApplyMemberAccessUpdate | backend/app/services/organizations.py:480-514 | flags set, rows replaced |
| BoardAccessService.OrganizationTables.ApplyInviteBoardAccess | backend/app/services/organizations.py:517-544 | the invite's rows replaced, none for an invite to all boards |
| BoardAccessService.OrganizationTables.UpdateMemberAccess | backend/app/api/organizations.py:492-522 | refused exactly for a foreign member, a foreign board or a board named twice |
| BoardAccessService.OrganizationTables.CreateOrgInvite | backend/app/api/organizations.py:609-665 | refused exactly for a foreign board or a board named twice |
| BoardAccessService.OrganizationTables.AcceptOrgInvite | backend/app/api/organizations.py:691-730 | an invite is used once, by a new member or merged into the existing membership |
| Calendar.OrdinalExact | backend/app/api/metrics.py:91-99 | dates compare field by field as their day numbers do, and equal numbers are equal dates |
| Calendar.PlusDaysOrdinal | backend/app/api/metrics.py:102-108 | adding days over month and year ends |
| Calendar.YearsInDays | backend/app/api/metrics.py:91-99 | the day number of a new year in closed form, leap years counted |
| Calendar.MonthsInDays | backend/app/api/metrics.py:91-99 | the days before each month |
| Calendar.EpochIsThursday | backend/app/api/metrics.py:96-97 | weekdays of real dates |
| MetricsBuckets.BucketStartMeans | backend/app/api/metrics.py:91-99 | the boundary is the full hour, midnight, midnight of the Monday not later, midnight of the first |
| MetricsBuckets.StartBeforeNext | backend/app/api/metrics.py:91-114 | every instant lies between its bucket start and the next boundary |
| MetricsBuckets.BucketIsUnique | backend/app/api/metrics.py:91-114 | an instant truncates to a boundary exactly if it lies in that bucket |
| MetricsBuckets.NextIsAligned | backend/app/api/metrics.py:102-114 | the next bucket of a boundary is a boundary |
| MetricsBuckets.NoneBetween | backend/app/api/metrics.py:102-114 | there is no boundary between a boundary and the next |
| MetricsBuckets.BuildBuckets | backend/app/api/metrics.py:117-123 | the loop terminates with the boundaries of the range |
| MetricsBuckets.BucketsNoGaps | backend/app/api/metrics.py:117-123 | they are aligned, strictly increasing, without gaps, from the bucket of the start to that of the end |
| MetricsBuckets.EveryInstantHasABucket | backend/app/api/metrics.py:117-123 | every instant of the range truncates to exactly one of them |
| MetricsBuckets.SeriesCountsEveryEvent | backend/app/api/metrics.py:126-183 | the values of a series of truncated counts add up to the number of events in the range |
| AgentTokens.LettersAreTheAlphabet | backend/app/core/agent_tokens.py:19-25 | the letters are those of the base64url alphabet in its order, and no other character is one |
| AgentTokens.GroupsAreNumbers | backend/app/core/agent_tokens.py:19-20 | group by group the sextets are the number that the bytes are, with zero bits behind the last byte and padding where no bits are left |
| AgentTokens.EncodedLength | backend/app/core/agent_tokens.py:19-20 | four characters for each three bytes begun |
| AgentTokens.PaddedRoundTrip | backend/app/core/agent_tokens.py:19-25 | padded base64url decodes to the encoded bytes |
| AgentTokens.PaddingComesBack | backend/app/core/agent_tokens.py:19-25 | padding by the negative length modulo 4 restores exactly what was stripped; neither padding nor a dollar sign is left in a field |
| AgentTokens.RoundTrip | backend/app/core/agent_tokens.py:19-25 | unpadded encoding round-trips for all byte strings |
| AgentTokens.ParsesExactly | backend/app/core/agent_tokens.py:43-46 | exactly the plain decimal numbers are parsed, leading zeros aside |
| AgentTokens.VerdictOnFields | backend/app/core/agent_tokens.py:35-55 | for any four fields, exactly when a stored text verifies and exactly when verification raises |
| AgentTokens.OtherTextsAreRefused | backend/app/core/agent_tokens.py:37-40 | a text with more or fewer than three dollar signs is refused |
| AgentTokens.HashSplits | backend/app/core/agent_tokens.py:28-38 | a stored hash splits into just its four fields |
| AgentTokens.VerifyExactly | backend/app/core/agent_tokens.py:28-55 | a hash verifies exactly the tokens that the key derivation does not tell from the hashed one, and never raises |
| AgentTokens.OwnHashVerifies | backend/app/core/agent_tokens.py:28-55 | every token verifies against its own hash |

## Left out

- StreamingChunks.ReadingIgnoresTheCut: is stated for good cuts, because the code can fail in others; `ReadsExactly` says in which.
- StreamingJson.DecodeAgrees: promises a number only as far as it has been read, because the code stops where a chunk ends inside it; `DecodeIs` says when it is the whole.
- WorkflowSafety.RunKeepsBlockedSafe: excludes an accepted dependency edit of a lead that leaves the task blocked, which the code permits on purpose.
- AgentTokens.VerifyAgentToken: `int` also takes signs, blanks and underscores and the base64 decoder skips foreign characters; neither occurs in hashes the program writes, and both are refused here.
- QueueWorker.Worker.FlushQueue: others push before a dequeue or while it waits, finitely often; between the commands of one drain they do so in `QueueInterleaving` only.
- Concurrent dependency edits: the cycle check takes no lock, so acyclicity is claimed for requests one after the other.
- Approval transactions: every statement reads the latest committed rows; other isolation levels are not modelled.
- Tasks without a board, and requests that fail before the rules run (tags, custom field keys): not part of this model; custom field values are a flag of the request.
- Activity rows other than comments, notifications, gateway messages, and agent provisioning except for what deleting an agent does to tasks and comments: they do not feed back into the modelled state.
- Deleting boards and organizations with all their rows within workflow runs; board deletion is modelled for access rows.
- Redis failures, undecodable envelopes, and crashes of the single worker with a task in hand; crashes during a drain are modelled.
- The literals NaN and Infinity, nesting and digit limits of the JSON decoder, and duplicate keys inside skill entries.
- Streams of approvals and memories: they keep no memory of what was sent.
- Years beyond 9999, where `datetime` raises, time zones, and the comparison range, which only shifts both ends.
- Role names before normalisation.
- PBKDF2 and the constant-time comparison: a function of token, salt and iterations, and equality.
- Authentication, admin checks, invite tokens and e-mail matching: a request names the member and the invite it is about.
