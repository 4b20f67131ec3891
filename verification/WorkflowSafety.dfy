/** What every request keeps, and what holds over whole runs of requests. */
module WorkflowSafety {
  import opened Models
  import opened TaskDependencies
  import opened TaskWorkflow
  import opened WorkflowRules
  import Approvals = ApprovalTaskLinks

  predicate SettledInInbox(task: Task) {
    task.status == Inbox && task.assignedAgentId == None && task.inProgressAt == None
  }

  predicate SettledOrDone(task: Task) { task.status == Done || SettledInInbox(task) }

  /** A task with an unfinished dependency is done, or waits in the inbox with nobody working on it. */
  ghost predicate BlockedSafe(s: State) {
    forall id | id in s.tasks && BlockersOf(s, id) != {} :: SettledOrDone(s.tasks[id])
  }

  ghost predicate GraphSound(s: State) {
    Consistent(s.tasks, s.rows) && AllAcyclic(s.rows)
  }

  // ---------------------------------------------------------------------------
  // Small facts about an accepted update
  // ---------------------------------------------------------------------------

  lemma {:induction false} ReplacedDeps(rows: Rows, boardId: Id, id: Id, deps: seq<Id>, boardId': Id, other: Id)
    ensures DependsOn(Replaced(rows, boardId, id, deps), boardId', other)
         == if boardId' == boardId && other == id then (set d | d in deps) else DependsOn(rows, boardId', other)
  {
    var rows' := Replaced(rows, boardId, id, deps);
    if boardId' == boardId && other == id {
      forall d | d in deps ensures d in DependsOn(rows', boardId', other) {
        assert TaskDependency(boardId, id, d) in rows';
      }
    } else {
      assert forall r: TaskDependency :: r.boardId == boardId' && r.taskId == other ==> (r in rows' <==> r in rows);
    }
  }

  /** The rows an accepted update leaves, and the blockers its rules looked at. */
  lemma {:induction false} AcceptedRows(s: State, actor: Actor, id: Id, req: TaskUpdate, now: Time)
    requires GraphSound(s) && UpdateOutcome(s, actor, id, req, now).Success?
    ensures GraphSound(Updated(s, actor, id, req, now))
    ensures forall t | t in s.tasks && t != id :: DepsOf(Updated(s, actor, id, req, now), t) == DepsOf(s, t)
    ensures IsLead(actor) || actor.User? ==>
      && DependencyEdit(s, id, req).Success?
      && DependencyEdit(s, id, req).value.blockers
         == BlockedBy(s.tasks, s.tasks[id].boardId, DepsOf(Updated(s, actor, id, req, now), id))
    ensures !IsLead(actor) && actor.AgentActor? ==> DepsOf(Updated(s, actor, id, req, now), id) == DepsOf(s, id)
  {
    var s' := Updated(s, actor, id, req, now);
    var change := UpdateOutcome(s, actor, id, req, now).value;
    var boardId := s.tasks[id].boardId;
    assert forall t | t in s'.tasks :: s'.tasks[t].boardId == s.tasks[t].boardId;
    if change.dependencies.Some? {
      ReplaceKeepsAcyclic(s.tasks, s.rows, boardId, id, req.dependsOn.value);
      forall t | t in s.tasks ensures DepsOf(s', t)
        == if t == id then (set d | d in change.dependencies.value) else DepsOf(s, t)
      {
        ReplacedDeps(s.rows, boardId, id, change.dependencies.value, s.tasks[t].boardId, t);
      }
    }
  }

  lemma {:induction false} NoSelfDependency(s: State, id: Id)
    requires GraphSound(s) && id in s.tasks
    ensures id !in DepsOf(s, id)
  {
    var edges := BoardEdges(s.rows, s.tasks[id].boardId);
    BoardSuccessors(s.rows, s.tasks[id].boardId, id);
    if id in DepsOf(s, id) {
      var walk := [id, id];
      assert walk[0] == walk[|walk| - 1];
      assert IsLasso(edges, walk);
      assert ReachesCycle(edges, id);
    }
  }

  /** The updated task itself: it is as the rules left it, and its blockers are the ones the rules saw. */
  lemma {:induction false} UpdatedTaskItself(s: State, actor: Actor, id: Id, req: TaskUpdate, now: Time)
    requires GraphSound(s) && UpdateOutcome(s, actor, id, req, now).Success?
    ensures var s' := Updated(s, actor, id, req, now);
      && s'.tasks[id] == UpdateOutcome(s, actor, id, req, now).value.task
      && BlockersOf(s', id) == BlockedBy(s.tasks, s.tasks[id].boardId, DepsOf(s', id))
  {
    var s' := Updated(s, actor, id, req, now);
    AcceptedRows(s, actor, id, req, now);
    NoSelfDependency(s', id);
    assert id !in DependentTaskIds(s'.rows, s.tasks[id].boardId, id);
    assert forall d | d in DepsOf(s', id) ::
      d in BlockersOf(s', id) <==> d in BlockedBy(s.tasks, s.tasks[id].boardId, DepsOf(s', id));
  }

  /** What a reopened dependency does to the tasks one level up. */
  lemma {:induction false} CascadeSettles(tasks: Tasks, rows: Rows, id: Id, previousStatus: Status, t: Id)
    requires id in tasks && t in tasks && tasks[t].boardId == tasks[id].boardId
    requires TaskDependency(tasks[id].boardId, t, id) in rows
    requires Reopened(previousStatus, tasks[id].status)
    ensures SettledOrDone(Cascaded(tasks, rows, id, previousStatus)[t])
  {
    assert t in DependentTaskIds(rows, tasks[id].boardId, id);
  }

  /** An update can only block another task by reopening: the updated task was done and no longer is. */
  lemma {:induction false} OnlyReopeningBlocks(s: State, actor: Actor, id: Id, req: TaskUpdate, now: Time, t: Id)
    requires GraphSound(s) && UpdateOutcome(s, actor, id, req, now).Success?
    requires t in s.tasks && t != id
    requires BlockersOf(s, t) == {} && BlockersOf(Updated(s, actor, id, req, now), t) != {}
    ensures var s' := Updated(s, actor, id, req, now);
      && Reopened(s.tasks[id].status, s'.tasks[id].status)
      && TaskDependency(s.tasks[t].boardId, t, id) in s'.rows
  {
    var s' := Updated(s, actor, id, req, now);
    AcceptedRows(s, actor, id, req, now);
    var d: Id :| d in BlockersOf(s', t);
    assert d in DepsOf(s, t) && d !in BlockersOf(s, t);
  }

  /** A task that depends on the updated one: if that was reopened, the cascade has seen to it. */
  lemma {:induction false} OtherTaskStaysSafe(s: State, actor: Actor, id: Id, req: TaskUpdate, now: Time, t: Id)
    requires GraphSound(s) && BlockedSafe(s) && UpdateOutcome(s, actor, id, req, now).Success?
    requires t in s.tasks && t != id
    requires BlockersOf(Updated(s, actor, id, req, now), t) != {}
    ensures SettledOrDone(Updated(s, actor, id, req, now).tasks[t])
  {
    if BlockersOf(s, t) == {} {
      OnlyReopeningBlocks(s, actor, id, req, now, t);
      var s' := Updated(s, actor, id, req, now);
      var change := UpdateOutcome(s, actor, id, req, now).value;
      UpdatedTaskItself(s, actor, id, req, now);
      var row := TaskDependency(s.tasks[t].boardId, t, id);
      assert row.boardId == s'.tasks[id].boardId by { AcceptedRows(s, actor, id, req, now); }
      CascadeSettles(s.tasks[id := change.task], s'.rows, id, s.tasks[id].status, t);
    }
  }

  /** The one request that may leave a blocked task as it was: a lead changing nothing but its dependencies. */
  ghost predicate LeadLeavesBlocked(s: State, actor: Actor, id: Id, req: TaskUpdate) {
    && IsLead(actor) && req.dependsOn.Some? && id in s.tasks
    && DependencyEdit(s, id, req).Success? && DependencyEdit(s, id, req).value.blockers != {}
    && !SettledInInbox(s.tasks[id])
  }

  /** A user's update sends a blocked task to the inbox, an agent's is refused on one. */
  lemma {:induction false} OwnTaskSettled(s: State, actor: Actor, id: Id, req: TaskUpdate, now: Time)
    requires GraphSound(s) && BlockedSafe(s) && UpdateOutcome(s, actor, id, req, now).Success? && !IsLead(actor)
    ensures var s' := Updated(s, actor, id, req, now); BlockersOf(s', id) != {} ==> SettledOrDone(s'.tasks[id])
  {
    AcceptedRows(s, actor, id, req, now);
    UpdatedTaskItself(s, actor, id, req, now);
  }

  lemma {:induction false} LeadTaskSettled(s: State, actor: Actor, id: Id, req: TaskUpdate, now: Time)
    requires GraphSound(s) && BlockedSafe(s) && UpdateOutcome(s, actor, id, req, now).Success? && IsLead(actor)
    ensures var s' := Updated(s, actor, id, req, now);
      (BlockersOf(s', id) != {} ==> SettledOrDone(s'.tasks[id])) <==> !LeadLeavesBlocked(s, actor, id, req)
  {
    AcceptedRows(s, actor, id, req, now);
    UpdatedTaskItself(s, actor, id, req, now);
    assert LeadChange(s, id, req).Success?;
  }

  /** The updated task is settled if blocked, but for that one request. */
  lemma {:induction false} UpdatedTaskSafe(s: State, actor: Actor, id: Id, req: TaskUpdate, now: Time)
    requires GraphSound(s) && BlockedSafe(s) && UpdateOutcome(s, actor, id, req, now).Success?
    ensures var s' := Updated(s, actor, id, req, now);
      (BlockersOf(s', id) != {} ==> SettledOrDone(s'.tasks[id])) <==> !LeadLeavesBlocked(s, actor, id, req)
  {
    if IsLead(actor) {
      LeadTaskSettled(s, actor, id, req, now);
    } else {
      OwnTaskSettled(s, actor, id, req, now);
    }
  }

  /** Exactly when an update keeps every blocked task settled: always, but for that one request. */
  lemma {:induction false} UpdateKeepsBlockedSafe(s: State, actor: Actor, id: Id, req: TaskUpdate, now: Time)
    requires GraphSound(s) && BlockedSafe(s) && UpdateOutcome(s, actor, id, req, now).Success?
    ensures BlockedSafe(Updated(s, actor, id, req, now)) <==> !LeadLeavesBlocked(s, actor, id, req)
  {
    var s' := Updated(s, actor, id, req, now);
    UpdatedTaskSafe(s, actor, id, req, now);
    assert id in s'.tasks && s'.tasks.Keys == s.tasks.Keys;
    forall t | t in s'.tasks && t != id && BlockersOf(s', t) != {}
      ensures SettledOrDone(s'.tasks[t])
    {
      OtherTaskStaysSafe(s, actor, id, req, now, t);
    }
  }

  // A board with a task in progress and an unfinished one, and a lead making the first depend on the second.
  ghost const EXAMPLE := State(
    map[1 := Task(0, InProgress, Some(7), Some(100), None), 2 := Task(0, Inbox, None, None, None)],
    {}, Approvals.Tables(map[], map[]), map[0 := Board(true, false, false, false)],
    map[7 := Agent(Some(0), false), 9 := Agent(Some(0), true)], {})
  ghost const EXAMPLE_LEAD := AgentActor(9, Agent(Some(0), true))
  ghost const EXAMPLE_EDIT := TaskUpdate(None, None, false, false, Some([2]), false, false, false)

  lemma {:induction false} NoRowsNoCycle()
    ensures AllAcyclic({})
  {
    forall b, start | ReachesCycle(BoardEdges({}, b), start) ensures false {
      var walk :| IsLasso(BoardEdges({}, b), walk) && walk[0] == start;
      LassoSteps(BoardEdges({}, b), walk);
    }
  }

  lemma {:induction false} ExampleIsSound()
    ensures GraphSound(EXAMPLE) && BlockedSafe(EXAMPLE)
  {
    NoRowsNoCycle();
  }

  lemma {:induction false} OneEdgeIsAcyclic(edges: Edges, from: Id, to: Id)
    requires from != to && forall n :: Successors(edges, n) == if n == from then {to} else {}
    ensures Acyclic(edges)
  {
    forall start | ReachesCycle(edges, start) ensures false {
      var walk :| IsLasso(edges, walk) && walk[0] == start;
      LassoSteps(edges, walk);
    }
  }

  /** Where there are no dependencies yet, any first one is accepted. */
  lemma {:induction false} FirstEdgeIsValid(tasks: Tasks, boardId: Id, id: Id, d: Id)
    requires id != d && d in BoardTasks(tasks, boardId)
    ensures Validated(tasks, {}, boardId, id, [d]) == Success([d])
  {
    OneIsDeduped(d);
    OneEdgeIsAcyclic(Overlay({}, boardId, id, [d]), id, d);
  }

  lemma {:induction false} ExampleEditIsValid()
    ensures Validated(EXAMPLE.tasks, EXAMPLE.rows, 0, 1, [2]) == Success([2])
  {
    hide Validated;
    FirstEdgeIsValid(EXAMPLE.tasks, 0, 1, 2);
  }

  lemma {:induction false} OneIsDeduped(d: Id)
    ensures Deduped([d]) == [d]
  {
    assert [d][..0] == [];
  }

  lemma {:induction false} ExampleEditIsAccepted()
    ensures UpdateOutcome(EXAMPLE, EXAMPLE_LEAD, 1, EXAMPLE_EDIT, 0).Success?
  {
    ExampleEditIsValid();
  }

  lemma {:induction false} ExampleEditBlocks()
    ensures LeadLeavesBlocked(EXAMPLE, EXAMPLE_LEAD, 1, EXAMPLE_EDIT)
  {
    ExampleEditIsValid();
    var deps := [2];
    assert DependencyEdit(EXAMPLE, 1, EXAMPLE_EDIT) ==
      Success(DepEdit(Some(deps), BlockedBy(EXAMPLE.tasks, 0, set d | d in deps)));
    assert 2 in BlockedBy(EXAMPLE.tasks, 0, set d | d in deps);
  }

  /** That request exists: the task gains an unfinished dependency and stays in progress. */
  lemma {:induction false} LeadEditCanLeaveTaskBlocked()
    ensures GraphSound(EXAMPLE) && BlockedSafe(EXAMPLE)
    ensures UpdateOutcome(EXAMPLE, EXAMPLE_LEAD, 1, EXAMPLE_EDIT, 0).Success?
    ensures !BlockedSafe(Updated(EXAMPLE, EXAMPLE_LEAD, 1, EXAMPLE_EDIT, 0))
  {
    ExampleIsSound();
    ExampleEditIsAccepted();
    ExampleEditBlocks();
    UpdateKeepsBlockedSafe(EXAMPLE, EXAMPLE_LEAD, 1, EXAMPLE_EDIT, 0);
  }

  lemma {:induction false} CreateKeepsSafe(s: State, id: Id, req: TaskCreate)
    requires GraphSound(s) && id !in s.tasks
    ensures GraphSound(Created(s, id, req))
    ensures BlockedSafe(s) ==> BlockedSafe(Created(s, id, req))
  {
    var s' := Created(s, id, req);
    if CreateOutcome(s, id, req).Success? {
      var deps := CreateOutcome(s, id, req).value;
      CreateKeepsAcyclic(s.tasks, s.rows, req.boardId, id, NewTask(req), req.dependsOn);
      assert forall d | d in deps :: d in s.tasks;
      forall t | t in s'.tasks
        ensures DepsOf(s', t) == if t == id then (set d | d in deps) else DepsOf(s, t)
      {
        if t == id {
          forall d | d in deps ensures d in DepsOf(s', t) {
            assert TaskDependency(req.boardId, id, d) in s'.rows;
          }
        }
      }
      forall t | t in s'.tasks
        ensures BlockersOf(s', t) ==
          if t == id then BlockedBy(s.tasks, req.boardId, set d | d in deps) else BlockersOf(s, t)
      {
      }
    }
  }

  lemma {:induction false} DeleteKeepsSafe(s: State, id: Id)
    requires GraphSound(s)
    ensures GraphSound(Deleted(s, id))
    ensures BlockedSafe(s) ==> BlockedSafe(Deleted(s, id))
  {
    var s' := Deleted(s, id);
    FewerRowsStayAcyclic(s'.rows, s.rows);
    forall t | t in s'.tasks ensures BlockersOf(s', t) <= BlockersOf(s, t) {
    }
  }

  /** Deleting an agent blocks nobody: what it had in progress waits in the inbox, and nobody is assigned to it. */
  lemma {:induction false} AgentDeleteKeepsSafe(s: State, agentId: Id)
    requires GraphSound(s)
    ensures GraphSound(AgentDeleted(s, agentId))
    ensures BlockedSafe(s) ==> BlockedSafe(AgentDeleted(s, agentId))
    ensures forall t | t in s.tasks ::
      && BlockersOf(AgentDeleted(s, agentId), t) == BlockersOf(s, t)
      && AgentDeleted(s, agentId).tasks[t].assignedAgentId != Some(agentId)
      && (s.tasks[t].status == InProgress && s.tasks[t].assignedAgentId == Some(agentId) ==>
            SettledInInbox(AgentDeleted(s, agentId).tasks[t]))
  {
    var s' := AgentDeleted(s, agentId);
    assert forall d | d in s.tasks :: s'.tasks[d] == Released(s.tasks[d], agentId);
    forall t | t in s.tasks ensures BlockersOf(s', t) == BlockersOf(s, t) {
    }
  }

  // ---------------------------------------------------------------------------
  // Gates
  // ---------------------------------------------------------------------------

  /** While an approval is pending, a status can only change by falling back to the inbox because of a dependency. */
  lemma {:induction false} PendingApprovalHoldsStatus(s: State, actor: Actor, id: Id, req: TaskUpdate, now: Time, t: Id)
    requires GraphSound(s) && UpdateOutcome(s, actor, id, req, now).Success? && t in s.tasks
    requires BlocksStatusChanges(s, s.tasks[t].boardId) && HasPendingApproval(s, s.tasks[t].boardId, t)
    requires Updated(s, actor, id, req, now).tasks[t].status != s.tasks[t].status
    ensures var s' := Updated(s, actor, id, req, now);
      s'.tasks[t].status == Inbox && BlockersOf(s', t) != {}
  {
    var s' := Updated(s, actor, id, req, now);
    UpdatedTaskItself(s, actor, id, req, now);
    AcceptedRows(s, actor, id, req, now);
    if t != id {
      assert t in DependentTaskIds(s'.rows, s.tasks[id].boardId, id);
      var r: TaskDependency :|
        r in s'.rows && r.boardId == s.tasks[id].boardId && r.dependsOnTaskId == id && r.taskId == t;
      assert id in DepsOf(s', t);
      assert id in BlockersOf(s', t);
    }
  }

  /** A task becomes done only by its own update, unblocked, and past the gates its board has switched on. */
  lemma {:induction false} BecomingDone(s: State, actor: Actor, id: Id, req: TaskUpdate, now: Time, t: Id)
    requires GraphSound(s) && UpdateOutcome(s, actor, id, req, now).Success? && t in s.tasks
    requires s.tasks[t].status != Done && Updated(s, actor, id, req, now).tasks[t].status == Done
    ensures t == id
    ensures var s' := Updated(s, actor, id, req, now);
      forall r | r in s'.rows && r.boardId == s.tasks[t].boardId && r.taskId == t ::
        !IsUnfinished(s'.tasks, r.boardId, r.dependsOnTaskId)
    ensures var b := s.tasks[t].boardId;
      && (b in s.boards && s.boards[b].requireReviewBeforeDone ==> s.tasks[t].status == Review)
      && ((b in s.boards ==> s.boards[b].requireApprovalForDone) ==> HasApproval(s, t, Approved))
      && (b in s.boards && s.boards[b].onlyLeadCanChangeStatus && actor.AgentActor? ==> actor.agent.isBoardLead)
  {
    var s' := Updated(s, actor, id, req, now);
    UpdatedTaskItself(s, actor, id, req, now);
    AcceptedRows(s, actor, id, req, now);
    AcceptedMeans(s, actor, id, req, now);
    assert BlockersOf(s', t) == {};
    forall r | r in s'.rows && r.boardId == s.tasks[t].boardId && r.taskId == t
      ensures !IsUnfinished(s'.tasks, r.boardId, r.dependsOnTaskId)
    {
      BlockersAre(s', t, r.dependsOnTaskId);
      assert r == TaskDependency(r.boardId, t, r.dependsOnTaskId);
    }
  }

  // ---------------------------------------------------------------------------
  // Runs
  // ---------------------------------------------------------------------------

  /** Requests, and whatever else happens to the tables the workflow only reads. */
  datatype Action =
    | Create(id: Id, create: TaskCreate)
    | Update(actor: Actor, id: Id, update: TaskUpdate, now: Time)
    | Delete(id: Id)
    | DeleteAgent(agentId: Id)
    | Elsewhere(approvals: Approvals.Tables, boards: map<Id, Board>, agents: map<Id, Agent>, comments: set<Comment>)

  ghost function Step(s: State, action: Action): State {
    match action
    case Create(id, create) => if id in s.tasks then s else Created(s, id, create)
    case Update(actor, id, update, now) => Updated(s, actor, id, update, now)
    case Delete(id) => if id in s.tasks then Deleted(s, id) else s
    case DeleteAgent(agentId) => if agentId in s.agents then AgentDeleted(s, agentId) else s
    case Elsewhere(approvals, boards, agents, comments) =>
      s.(approvals := approvals, boards := boards, agents := agents, comments := comments)
  }

  ghost function Run(s: State, actions: seq<Action>): State {
    if actions == [] then s else Step(Run(s, actions[..|actions| - 1]), actions[|actions| - 1])
  }

  /** The step is an accepted dependency edit of a lead that leaves its task blocked. */
  ghost predicate LeavesBlocked(s: State, action: Action) {
    && action.Update?
    && UpdateOutcome(s, action.actor, action.id, action.update, action.now).Success?
    && LeadLeavesBlocked(s, action.actor, action.id, action.update)
  }

  ghost predicate LeadsSettleTasks(s: State, actions: seq<Action>) {
    forall i | 0 <= i < |actions| :: !LeavesBlocked(Run(s, actions[..i]), actions[i])
  }

  lemma {:induction false} StepKeepsGraphSound(s: State, action: Action)
    requires GraphSound(s)
    ensures GraphSound(Step(s, action))
  {
    match action {
      case Create(id, create) => if id !in s.tasks { CreateKeepsSafe(s, id, create); }
      case Update(actor, id, update, now) =>
        if UpdateOutcome(s, actor, id, update, now).Success? { AcceptedRows(s, actor, id, update, now); }
      case Delete(id) => DeleteKeepsSafe(s, id);
      case DeleteAgent(agentId) => AgentDeleteKeepsSafe(s, agentId);
      case Elsewhere(_, _, _, _) =>
    }
  }

  /** The agent that has the task in progress is deleted. */
  predicate LosesItsAgent(s: State, action: Action, t: Id)
    requires t in s.tasks
  {
    && action.DeleteAgent? && action.agentId in s.agents
    && s.tasks[t].status == InProgress && s.tasks[t].assignedAgentId == Some(action.agentId)
  }

  /** With the gate on, a task under a pending approval changes its status only to the inbox: in an update, because of
      an unfinished dependency, or when the agent that works on it is deleted. */
  lemma {:induction false} StepHoldsStatus(s: State, action: Action, t: Id)
    requires GraphSound(s) && t in s.tasks && t in Step(s, action).tasks
    requires BlocksStatusChanges(s, s.tasks[t].boardId) && HasPendingApproval(s, s.tasks[t].boardId, t)
    requires Step(s, action).tasks[t].status != s.tasks[t].status
    ensures Step(s, action).tasks[t].status == Inbox
    ensures action.DeleteAgent? ==> LosesItsAgent(s, action, t)
    ensures !action.DeleteAgent? ==> action.Update? && BlockersOf(Step(s, action), t) != {}
  {
    if action.Update? {
      PendingApprovalHoldsStatus(s, action.actor, action.id, action.update, action.now, t);
    }
  }

  /** So the gate is passed by, with no unfinished dependency as the reason, exactly when the agent at work on an
      unblocked task is deleted. */
  lemma {:induction false} HoldBrokenExactly(s: State, action: Action, t: Id)
    requires GraphSound(s) && t in s.tasks && t in Step(s, action).tasks
    requires BlocksStatusChanges(s, s.tasks[t].boardId) && HasPendingApproval(s, s.tasks[t].boardId, t)
    ensures Step(s, action).tasks[t].status != s.tasks[t].status && BlockersOf(Step(s, action), t) == {}
      <==> LosesItsAgent(s, action, t) && BlockersOf(s, t) == {}
  {
    if action.DeleteAgent? {
      AgentDeleteKeepsSafe(s, action.agentId);
    } else if Step(s, action).tasks[t].status != s.tasks[t].status {
      StepHoldsStatus(s, action, t);
    }
  }

  // A board that holds statuses while approvals are pending, and a task in progress that one covers.
  ghost const HELD := State(
    map[1 := Task(0, InProgress, Some(7), Some(100), None)],
    {}, Approvals.Tables(map[5 := Approval(0, Some(1), Pending, 50)], map[5 := [1]]),
    map[0 := Board(true, false, true, false)], map[7 := Agent(Some(0), false)], {})

  lemma {:induction false} HeldIsSound()
    ensures GraphSound(HELD) && BlockedSafe(HELD) && Approvals.WellFormed(HELD.approvals)
    ensures BlocksStatusChanges(HELD, 0) && HasPendingApproval(HELD, 0, 1) && BlockersOf(HELD, 1) == {}
  {
    assert 5 in HELD.approvals.approvals && 1 in Approvals.Coverage(HELD.approvals, 5);
    NoRowsNoCycle();
  }

  /** Such a state exists: deleting the agent changes the status of a task under a pending approval. */
  lemma {:induction false} DeletingAgentPassesGate()
    ensures GraphSound(HELD) && BlocksStatusChanges(HELD, 0) && HasPendingApproval(HELD, 0, 1)
    ensures Step(HELD, DeleteAgent(7)).tasks[1] == Task(0, Inbox, None, None, None)
    ensures BlockersOf(Step(HELD, DeleteAgent(7)), 1) == {}
  {
    HeldIsSound();
    HoldBrokenExactly(HELD, DeleteAgent(7), 1);
  }

  /** Every board's dependency graph is acyclic in every reachable state, whoever acts. */
  lemma {:induction false} RunKeepsGraphSound(s: State, actions: seq<Action>)
    requires GraphSound(s)
    ensures GraphSound(Run(s, actions))
  {
    if actions != [] {
      RunKeepsGraphSound(s, actions[..|actions| - 1]);
      StepKeepsGraphSound(Run(s, actions[..|actions| - 1]), actions[|actions| - 1]);
    }
  }

  /** So a board with unfinished work always has a task that nothing blocks. */
  lemma {:induction false} RunNeverStuck(s: State, actions: seq<Action>, boardId: Id)
    requires GraphSound(s)
    requires Unfinished(Run(s, actions).tasks, boardId) != {}
    ensures exists t | t in Unfinished(Run(s, actions).tasks, boardId) :: BlockersOf(Run(s, actions), t) == {}
  {
    var r := Run(s, actions);
    RunKeepsGraphSound(s, actions);
    SomeTaskCanProceed(r.tasks, r.rows, boardId);
    var t: Id :| t in Unfinished(r.tasks, boardId) && BlockedBy(r.tasks, boardId, DependsOn(r.rows, boardId, t)) == {};
    assert BlockersOf(r, t) == {};
  }

  lemma {:induction false} RunKeepsBlockedSafe(s: State, actions: seq<Action>)
    requires GraphSound(s) && BlockedSafe(s) && LeadsSettleTasks(s, actions)
    ensures BlockedSafe(Run(s, actions))
  {
    if actions != [] {
      var before, last := actions[..|actions| - 1], actions[|actions| - 1];
      assert forall i | 0 <= i < |before| :: before[i] == actions[i] && before[..i] == actions[..i];
      RunKeepsBlockedSafe(s, before);
      RunKeepsGraphSound(s, before);
      var r := Run(s, before);
      match last {
        case Create(id, create) => if id !in r.tasks { CreateKeepsSafe(r, id, create); }
        case Update(actor, id, update, now) =>
          if UpdateOutcome(r, actor, id, update, now).Success? { UpdateKeepsBlockedSafe(r, actor, id, update, now); }
        case Delete(id) => DeleteKeepsSafe(r, id);
        case DeleteAgent(agentId) => AgentDeleteKeepsSafe(r, agentId);
        case Elsewhere(_, _, _, _) =>
      }
    }
  }
}
