/** What it means for the rows of the tables that a request on a task is accepted, or refused for a reason. */
module WorkflowRules {
  import opened Models
  import opened TaskDependencies
  import opened TaskWorkflow
  import Approvals = ApprovalTaskLinks

  // ---------------------------------------------------------------------------
  // Facts about rows
  // ---------------------------------------------------------------------------

  /** An approval of the task's board with that status names the task, by a link row or by its own task_id. */
  ghost predicate HasApproval(s: State, t: Id, status: ApprovalStatus)
    requires t in s.tasks
  {
    exists a | a in s.approvals.approvals ::
      && s.approvals.approvals[a].boardId == s.tasks[t].boardId
      && s.approvals.approvals[a].status == status
      && (s.approvals.approvals[a].taskId == Some(t) || (a in s.approvals.links && t in s.approvals.links[a]))
  }

  /** A dependency of the task that is not a done task of its board. */
  predicate IsUnfinished(tasks: Tasks, boardId: Id, d: Id) {
    d in tasks && tasks[d].boardId == boardId ==> tasks[d].status != Done
  }

  /** A comment on the task by that agent, no older than that. */
  ghost predicate Commented(s: State, t: Id, author: Option<Id>, since: Option<Time>) {
    exists c | c in s.comments ::
      c.taskId == t && c.agentId.Some? && c.agentId == author && since.Some? && since.value <= c.createdAt
  }

  lemma {:induction false} BlockersAre(s: State, t: Id, d: Id)
    requires t in s.tasks
    ensures d in BlockersOf(s, t) <==>
      TaskDependency(s.tasks[t].boardId, t, d) in s.rows && IsUnfinished(s.tasks, s.tasks[t].boardId, d)
  {
    if d in DepsOf(s, t) {
      var r: TaskDependency :|
        r in s.rows && r.boardId == s.tasks[t].boardId && r.taskId == t && r.dependsOnTaskId == d;
      assert r == TaskDependency(s.tasks[t].boardId, t, d);
    }
  }

  /** In an approvals table as the handlers leave it, naming a task is covering it. */
  lemma {:induction false} PendingIs(s: State, t: Id)
    requires t in s.tasks && Approvals.WellFormed(s.approvals)
    ensures HasPendingApproval(s, s.tasks[t].boardId, t) <==> HasApproval(s, t, Pending)
  {
    Approvals.CoveredIsNamed(s.approvals, s.tasks[t].boardId, t, None);
    var b := s.tasks[t].boardId;
    if HasPendingApproval(s, b, t) {
      var a: Id :| Approvals.PendingFor(s.approvals, b, a, t);
    }
    if HasApproval(s, t, Pending) {
      var a :| a in s.approvals.approvals && s.approvals.approvals[a].boardId == b
        && s.approvals.approvals[a].status == Pending
        && (s.approvals.approvals[a].taskId == Some(t) || (a in s.approvals.links && t in s.approvals.links[a]));
      assert Approvals.PendingFor(s.approvals, b, a, t);
    }
  }

  lemma {:induction false} ApprovedIs(s: State, t: Id)
    requires t in s.tasks
    ensures HasApprovedApproval(s, s.tasks[t].boardId, t) <==> HasApproval(s, t, Approved)
  {
    if HasApproval(s, t, Approved) {
      var a :| a in s.approvals.approvals && s.approvals.approvals[a].boardId == s.tasks[t].boardId
        && s.approvals.approvals[a].status == Approved
        && (s.approvals.approvals[a].taskId == Some(t) || (a in s.approvals.links && t in s.approvals.links[a]));
      assert s.approvals.approvals[a].taskId == Some(t) || t in Approvals.LinksOf(s.approvals, a);
    }
  }

  // ---------------------------------------------------------------------------
  // Updates
  // ---------------------------------------------------------------------------

  /** The assignee may be given a task of that board, by a lead or by a user. */
  predicate Assignable(s: State, boardId: Id, agentId: Id, byLead: bool) {
    && agentId in s.agents
    && (byLead ==> !s.agents[agentId].isBoardLead)
    && (s.agents[agentId].boardId.None? || s.agents[agentId].boardId == Some(boardId))
  }

  /** An accepted update has met every rule that the board and the actor are under. */
  lemma {:induction false} AcceptedMeans(s: State, actor: Actor, id: Id, req: TaskUpdate, now: Time)
    requires id in s.tasks && UpdateOutcome(s, actor, id, req, now).Success?
    ensures var task, task' := s.tasks[id], UpdateOutcome(s, actor, id, req, now).value.task;
      var b := task.boardId;
      && task'.boardId == b
      && (actor.User? ==> actor.hasWriteAccess)
      && (task'.status == Done && task.status != Done && b in s.boards && s.boards[b].requireReviewBeforeDone ==>
            task.status == Review)
      && (task'.status == Done && task.status != Done && (b in s.boards ==> s.boards[b].requireApprovalForDone) ==>
            HasApproval(s, id, Approved))
      && (b in s.boards && s.boards[b].onlyLeadCanChangeStatus && actor.AgentActor? && !actor.agent.isBoardLead ==>
            req.status.None? && task' == task)
      && (b in s.boards && s.boards[b].blockStatusChangesWithPendingApproval && Approvals.WellFormed(s.approvals)
          && req.status.Some? && task'.status != task.status && req.status.value != task.status ==>
            !HasApproval(s, id, Pending))
      && (task'.status == Review && req.status == Some(Review) && !req.comment && !IsLead(actor) ==>
            Commented(s, id, if task'.assignedAgentId.Some? then task'.assignedAgentId else task.assignedAgentId,
              if task'.previousInProgressAt.Some? then task'.previousInProgressAt else task.inProgressAt))
      && (task'.assignedAgentId.Some? && task'.assignedAgentId != task.assignedAgentId ==>
            || (actor.AgentActor? && task'.assignedAgentId == Some(actor.id))
            || Assignable(s, b, task'.assignedAgentId.value, IsLead(actor)))
  {
    ApprovedIs(s, id);
    if Approvals.WellFormed(s.approvals) {
      PendingIs(s, id);
    }
  }

  /** A refusal names a rule that the request breaks: who may ask, and who may be assigned. */
  lemma {:induction false} RefusedMeans(s: State, actor: Actor, id: Id, req: TaskUpdate, now: Time)
    ensures match UpdateOutcome(s, actor, id, req, now)
      case Failure(NotFound) => id !in s.tasks
      case Failure(WriteAccessDenied) => actor.User? && !actor.hasWriteAccess
      case Failure(OnlyLeadChangesStatus) =>
        && id in s.tasks && s.tasks[id].boardId in s.boards && s.boards[s.tasks[id].boardId].onlyLeadCanChangeStatus
        && actor.AgentActor? && !actor.agent.isBoardLead && req.status.Some?
      case Failure(AgentNotFound) => AssigneeOf(req).Some? && AssigneeOf(req).value !in s.agents
      case Failure(AgentIsLead) =>
        && IsLead(actor) && AssigneeOf(req).Some? && AssigneeOf(req).value in s.agents
        && s.agents[AssigneeOf(req).value].isBoardLead
      case Failure(AgentOnOtherBoard) =>
        && id in s.tasks && AssigneeOf(req).Some? && AssigneeOf(req).value in s.agents
        && s.agents[AssigneeOf(req).value].boardId.Some?
        && s.agents[AssigneeOf(req).value].boardId != Some(s.tasks[id].boardId)
      case _ => true
  {
    GateReasons(s, id, actor, req, now);
    hide Gates, ReviewNeedsComment, BlockersOf, Validated, BlockedBy;
  }

  lemma {:induction false} GateReasons(s: State, id: Id, actor: Actor, req: TaskUpdate, now: Time)
    ensures id in s.tasks && RequestedChange(s, actor, id, req, now).Success? ==>
      var change := RequestedChange(s, actor, id, req, now).value;
      var gate := Gates(s, id, s.tasks[id], change.task.status, StatusRequested(s.tasks[id], req));
      gate.Some? ==> gate.value in {PendingApprovalBlocks, ReviewRequired, ApprovalRequired}
  {
    hide RequestedChange;
  }

  lemma {:induction false} GatesMean(s: State, id: Id, target: Status, requested: bool)
    requires id in s.tasks && Approvals.WellFormed(s.approvals)
    ensures match Gates(s, id, s.tasks[id], target, requested)
      case None => true
      case Some(PendingApprovalBlocks) =>
        && HasApproval(s, id, Pending) && requested && target != s.tasks[id].status
        && s.tasks[id].boardId in s.boards && s.boards[s.tasks[id].boardId].blockStatusChangesWithPendingApproval
      case Some(ReviewRequired) =>
        && s.tasks[id].status != Review && s.tasks[id].status != Done && target == Done
        && s.tasks[id].boardId in s.boards && s.boards[s.tasks[id].boardId].requireReviewBeforeDone
      case Some(ApprovalRequired) =>
        && !HasApproval(s, id, Approved) && s.tasks[id].status != Done && target == Done
        && (s.tasks[id].boardId in s.boards ==> s.boards[s.tasks[id].boardId].requireApprovalForDone)
      case Some(_) => false
  {
    ApprovedIs(s, id);
    PendingIs(s, id);
    hide HasApproval, HasPendingApproval, HasApprovedApproval;
  }

  /** A task gets done only by a request for it, and no rule says what the gates say. */
  lemma {:induction false} ChangeMeans(s: State, actor: Actor, id: Id, req: TaskUpdate, now: Time)
    requires id in s.tasks
    ensures match RequestedChange(s, actor, id, req, now)
      case Success(change) => change.task.status == Done && s.tasks[id].status != Done ==> req.status == Some(Done)
      case Failure(e) => e !in {PendingApprovalBlocks, ReviewRequired, ApprovalRequired, CommentRequired}
  {
    hide AssigneeProblem, BlockersOf, Validated, BlockedBy;
    AssigneeReasons(s, s.tasks[id].boardId, req.assignee);
    AssigneeReasons(s, s.tasks[id].boardId, None);
  }

  lemma {:induction false} AssigneeReasons(s: State, boardId: Id, assignee: Option<Option<Id>>)
    ensures forall byLead :: AssigneeProblem(s, boardId, assignee, byLead).Some? ==>
      AssigneeProblem(s, boardId, assignee, byLead).value in {AgentNotFound, AgentIsLead, AgentOnOtherBoard}
  {
  }

  /** And the gates of the board. */
  lemma {:induction false} GateMeans(s: State, actor: Actor, id: Id, req: TaskUpdate, now: Time)
    requires id in s.tasks && Approvals.WellFormed(s.approvals)
    ensures match UpdateOutcome(s, actor, id, req, now)
      case Failure(PendingApprovalBlocks) =>
        && HasApproval(s, id, Pending) && req.status.Some? && req.status.value != s.tasks[id].status
        && s.tasks[id].boardId in s.boards && s.boards[s.tasks[id].boardId].blockStatusChangesWithPendingApproval
      case Failure(ReviewRequired) =>
        && s.tasks[id].status != Review && s.tasks[id].status != Done && req.status == Some(Done)
        && s.tasks[id].boardId in s.boards && s.boards[s.tasks[id].boardId].requireReviewBeforeDone
      case Failure(ApprovalRequired) =>
        && !HasApproval(s, id, Approved) && s.tasks[id].status != Done && req.status == Some(Done)
        && (s.tasks[id].boardId in s.boards ==> s.boards[s.tasks[id].boardId].requireApprovalForDone)
      case _ => true
  {
    ChangeMeans(s, actor, id, req, now);
    if RequestedChange(s, actor, id, req, now).Success? {
      var target := RequestedChange(s, actor, id, req, now).value.task.status;
      GatesMean(s, id, target, StatusRequested(s.tasks[id], req));
    }
    hide HasApproval, RequestedChange, Gates, ReviewNeedsComment;
  }

  /** A comment is required only where no fresh one by the assignee is there. */
  lemma {:induction false} CommentMeans(s: State, actor: Actor, id: Id, req: TaskUpdate, now: Time)
    requires id in s.tasks && UpdateOutcome(s, actor, id, req, now) == Failure(CommentRequired)
    ensures RequestedChange(s, actor, id, req, now).Success? && !req.comment
    ensures var task, task' := s.tasks[id], RequestedChange(s, actor, id, req, now).value.task;
      && task'.status == Review
      && !Commented(s, id, if task'.assignedAgentId.Some? then task'.assignedAgentId else task.assignedAgentId,
            if task'.previousInProgressAt.Some? then task'.previousInProgressAt else task.inProgressAt)
  {
    ChangeMeans(s, actor, id, req, now);
    GateReasons(s, id, actor, req, now);
    hide Gates;
  }

  function AssigneeOf(req: TaskUpdate): Option<Id> {
    if req.assignee.Some? then req.assignee.value else None
  }

  /** Where the blockers that refuse a request come from: the stored dependencies, or the requested ones. */
  lemma {:induction false} BlockedMeans(s: State, actor: Actor, id: Id, req: TaskUpdate, now: Time)
    ensures match UpdateOutcome(s, actor, id, req, now)
      case Failure(Blocked(blockers)) =>
        && id in s.tasks && blockers != {} && actor.AgentActor?
        && forall d :: d in blockers <==>
          && IsUnfinished(s.tasks, s.tasks[id].boardId, d)
          && if req.dependsOn.Some? then d in req.dependsOn.value
             else TaskDependency(s.tasks[id].boardId, id, d) in s.rows
      case _ => true
  {
    if id in s.tasks && UpdateOutcome(s, actor, id, req, now).Failure?
      && UpdateOutcome(s, actor, id, req, now).error.Blocked?
    {
      forall d ensures d in BlockersOf(s, id) <==>
        TaskDependency(s.tasks[id].boardId, id, d) in s.rows && IsUnfinished(s.tasks, s.tasks[id].boardId, d)
      {
        BlockersAre(s, id, d);
      }
    }
  }

  /** A reopened task sends each open task that depends on it to the inbox, and touches no other. */
  lemma {:induction false} CascadeIs(tasks: Tasks, rows: Rows, id: Id, previousStatus: Status, t: Id)
    requires id in tasks && t in tasks
    ensures var after := Cascaded(tasks, rows, id, previousStatus);
      && after.Keys == tasks.Keys
      && after[t] ==
        if previousStatus == Done && tasks[id].status != Done && TaskDependency(tasks[id].boardId, t, id) in rows
          && tasks[t].boardId == tasks[id].boardId && tasks[t].status != Done
        then Task(tasks[t].boardId, Inbox, None, None, tasks[t].previousInProgressAt)
        else tasks[t]
  {
    if t in DependentTaskIds(rows, tasks[id].boardId, id) {
      var r: TaskDependency :|
        r in rows && r.boardId == tasks[id].boardId && r.dependsOnTaskId == id && r.taskId == t;
      assert r == TaskDependency(tasks[id].boardId, t, id);
    }
  }

  /** What the update stores besides the cascade: the dependency rows and the comment. */
  lemma {:induction false} StoredMeans(s: State, actor: Actor, id: Id, req: TaskUpdate, now: Time)
    requires id in s.tasks && UpdateOutcome(s, actor, id, req, now).Success?
    ensures var s' := Updated(s, actor, id, req, now);
      && (forall r: TaskDependency :: r in s'.rows <==>
            if req.dependsOn.Some? && r.boardId == s.tasks[id].boardId && r.taskId == id
            then r.dependsOnTaskId in req.dependsOn.value else r in s.rows)
      && s'.comments == s.comments + (if !req.comment then {}
            else {Comment(id, if actor.AgentActor? then Some(actor.id) else None, now)})
      && s'.approvals == s.approvals && s'.boards == s.boards && s'.agents == s.agents
  {
  }

  // ---------------------------------------------------------------------------
  // Creating tasks
  // ---------------------------------------------------------------------------

  /** A created task has the fields of the request and its dependencies, on its board; if one of those is unfinished it
      is in the inbox and unassigned. */
  lemma {:induction false} CreatedMeans(s: State, id: Id, req: TaskCreate)
    requires id !in s.tasks && CreateOutcome(s, id, req).Success?
    ensures var s' := Created(s, id, req);
      && s' == s.(tasks := s'.tasks, rows := s'.rows)
      && s'.tasks == s.tasks[id := Task(req.boardId, req.status, req.assignee, None, None)]
      && (forall r: TaskDependency :: r in s'.rows <==>
            r in s.rows || (r.boardId == req.boardId && r.taskId == id && r.dependsOnTaskId in req.dependsOn))
      && id !in req.dependsOn
      && (forall d | d in req.dependsOn :: d in s.tasks && s.tasks[d].boardId == req.boardId)
      && (forall d | d in req.dependsOn && s.tasks[d].status != Done :: req.status == Inbox && req.assignee == None)
      && (req.assignee.Some? ==> req.assignee.value in s.agents)
      && (req.assignee.Some? && req.byLead ==> Assignable(s, req.boardId, req.assignee.value, true))
  {
    var s', deps := Created(s, id, req), CreateOutcome(s, id, req).value;
    assert s'.rows == s.rows + RowsFor(req.boardId, id, deps);
    assert forall d :: d in deps <==> d in req.dependsOn;
    forall d | d in req.dependsOn ensures d in BoardTasks(s.tasks, req.boardId) {
    }
    forall d | d in req.dependsOn && s.tasks[d].status != Done ensures req.status == Inbox && req.assignee == None {
      assert d in BlockedBy(s.tasks, req.boardId, set x | x in deps);
    }
  }

  // ---------------------------------------------------------------------------
  // Deleting agents
  // ---------------------------------------------------------------------------

  /** What is left of an agent: its work in progress in the inbox, its other tasks unassigned, its comments unsigned. */
  lemma {:induction false} AgentDeletedMeans(s: State, agentId: Id)
    ensures var s' := AgentDeleted(s, agentId);
      && s' == s.(tasks := s'.tasks, agents := s'.agents, comments := s'.comments)
      && s'.tasks.Keys == s.tasks.Keys && agentId !in s'.agents
      && (forall a | a in s.agents && a != agentId :: a in s'.agents && s'.agents[a] == s.agents[a])
      && (forall t | t in s.tasks && s.tasks[t].assignedAgentId != Some(agentId) :: s'.tasks[t] == s.tasks[t])
      && (forall t | t in s.tasks && s.tasks[t].assignedAgentId == Some(agentId) ::
            s'.tasks[t] ==
              if s.tasks[t].status == InProgress
              then Task(s.tasks[t].boardId, Inbox, None, None, s.tasks[t].previousInProgressAt)
              else s.tasks[t].(assignedAgentId := None))
    ensures var comments := AgentDeleted(s, agentId).comments;
      && (forall c | c in s.comments && c.agentId != Some(agentId) :: c in comments)
      && (forall c | c in s.comments && c.agentId == Some(agentId) :: Comment(c.taskId, None, c.createdAt) in comments)
      && (forall c | c in comments ::
            c in s.comments || (c.agentId == None && Comment(c.taskId, Some(agentId), c.createdAt) in s.comments))
      && (forall c | c in comments :: c.agentId != Some(agentId))
  {
  }
}
