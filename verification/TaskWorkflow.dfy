/** The task workflow: three actor paths, the board gates, and the cascade that follows a reopened dependency.
    Models `update_task` and the functions below it in backend/app/api/tasks.py, and both create paths. */
module TaskWorkflow {
  import opened Models
  import opened TaskDependencies
  import Approvals = ApprovalTaskLinks
  import TaskDeletion

  /** A task comment by an agent; the schemas strip messages and refuse blank ones. */
  datatype Comment = Comment(taskId: Id, agentId: Option<Id>, createdAt: Time)

  datatype State = State(
    tasks: map<Id, Task>,
    rows: Rows,
    approvals: Approvals.Tables,
    boards: map<Id, Board>,
    agents: map<Id, Agent>,
    comments: set<Comment>)

  datatype Actor = User(hasWriteAccess: bool) | AgentActor(id: Id, agent: Agent)

  /** The request. `assignee` is Some(None) when the payload sets assigned_agent_id to null; `otherFields` stands for
      title, description, priority and due_at; the last two flags say whether tag ids or custom fields are invalid. */
  datatype TaskUpdate = TaskUpdate(
    status: Option<Status>,
    assignee: Option<Option<Id>>,
    otherFields: bool,
    comment: bool,
    dependsOn: Option<seq<Id>>,
    tagsGiven: bool,
    tagsInvalid: bool,
    customFieldsInvalid: bool)

  datatype Reject =
    | NotFound
    | WriteAccessDenied
    | BoardMismatch
    | AssigneeMismatch
    | FieldForbidden
    | CommentForbidden
    | OnlyLeadChangesStatus
    | DependenciesFrozen
    | BadDependencies(error: DependencyError)
    | BadTags
    | BadCustomFields
    | Blocked(blockers: set<Id>)
    | AgentNotFound
    | AgentIsLead
    | AgentOnOtherBoard
    | StatusGate
    | StatusTargetGate
    | PendingApprovalBlocks
    | ReviewRequired
    | ApprovalRequired
    | CommentRequired

  // ---------------------------------------------------------------------------
  // Queries
  // ---------------------------------------------------------------------------

  function DepsOf(s: State, id: Id): set<Id>
    requires id in s.tasks
  {
    DependsOn(s.rows, s.tasks[id].boardId, id)
  }

  function BlockersOf(s: State, id: Id): set<Id>
    requires id in s.tasks
  {
    BlockedBy(s.tasks, s.tasks[id].boardId, DepsOf(s, id))
  }

  ghost predicate HasPendingApproval(s: State, boardId: Id, id: Id) {
    Approvals.CoveredByPending(s.approvals, boardId, id, None)
  }

  /** `_task_has_approved_linked_approval`. */
  predicate HasApprovedApproval(s: State, boardId: Id, id: Id) {
    exists a | a in s.approvals.approvals ::
      && s.approvals.approvals[a].boardId == boardId && s.approvals.approvals[a].status == Approved
      && (s.approvals.approvals[a].taskId == Some(id) || id in Approvals.LinksOf(s.approvals, a))
  }

  /** A board row that is missing reads as null: only the approval rule treats null as set. */
  predicate RequiresApproval(s: State, boardId: Id) { boardId in s.boards ==> s.boards[boardId].requireApprovalForDone }
  predicate RequiresReview(s: State, boardId: Id) { boardId in s.boards && s.boards[boardId].requireReviewBeforeDone }
  predicate BlocksStatusChanges(s: State, boardId: Id) {
    boardId in s.boards && s.boards[boardId].blockStatusChangesWithPendingApproval
  }
  predicate OnlyLead(s: State, boardId: Id) { boardId in s.boards && s.boards[boardId].onlyLeadCanChangeStatus }

  /** `has_valid_recent_comment`. */
  predicate HasRecentComment(s: State, id: Id, author: Option<Id>, since: Option<Time>) {
    && author.Some? && since.Some?
    && exists c | c in s.comments :: c.taskId == id && c.agentId == author && c.createdAt >= since.value
  }

  /** The three gates, in the order the code runs them. */
  ghost function Gates(s: State, id: Id, previous: Task, target: Status, statusRequested: bool): Option<Reject> {
    if statusRequested && previous.status != target && BlocksStatusChanges(s, previous.boardId)
      && HasPendingApproval(s, previous.boardId, id) then Some(PendingApprovalBlocks)
    else if previous.status == Done || target != Done then None
    else if RequiresReview(s, previous.boardId) && previous.status != Review then Some(ReviewRequired)
    else if RequiresApproval(s, previous.boardId) && !HasApprovedApproval(s, previous.boardId, id) then
      Some(ApprovalRequired)
    else None
  }

  // ---------------------------------------------------------------------------
  // What an accepted update does, path by path
  // ---------------------------------------------------------------------------

  /** The updated row, the status entry of the updates, and the new dependencies if there are any. */
  datatype Change = Change(task: Task, statusEntry: Option<Status>, dependencies: Option<seq<Id>>)

  function StatusRequested(previous: Task, req: TaskUpdate): bool {
    req.status.Some? && req.status.value != previous.status
  }

  function ByAgent(previous: Task, agentId: Id, target: Status, now: Time): Task {
    match target
    case Inbox => Task(previous.boardId, Inbox, None, None, previous.inProgressAt)
    case Review => Task(previous.boardId, Review, None, None, previous.inProgressAt)
    case InProgress => Task(previous.boardId, InProgress, Some(agentId), Some(now), previous.previousInProgressAt)
    case Done => Task(previous.boardId, Done, Some(agentId), previous.inProgressAt, previous.previousInProgressAt)
  }

  function AgentChange(s: State, id: Id, agentId: Id, agent: Agent, req: TaskUpdate, now: Time): Result<Change, Reject>
    requires id in s.tasks
  {
    var previous := s.tasks[id];
    if agent.boardId.Some? && agent.boardId.value != previous.boardId then Failure(BoardMismatch)
    else if previous.assignedAgentId.Some? && previous.assignedAgentId.value != agentId && req.status.Some? then
      Failure(AssigneeMismatch)
    else if req.dependsOn.Some? || req.tagsGiven || req.assignee.Some? || req.otherFields then Failure(FieldForbidden)
    else if req.status.None? then Success(Change(previous, None, None))
    else if OnlyLead(s, previous.boardId) then Failure(OnlyLeadChangesStatus)
    else if req.status.value != Inbox && BlockersOf(s, id) != {} then Failure(Blocked(BlockersOf(s, id)))
    else Success(Change(ByAgent(previous, agentId, req.status.value, now), req.status, None))
  }

  /** The dependency edit a lead or a user asks for, and the blockers that count afterwards. */
  datatype DepEdit = DepEdit(dependencies: Option<seq<Id>>, blockers: set<Id>)

  ghost function DependencyEdit(s: State, id: Id, req: TaskUpdate): Result<DepEdit, Reject>
    requires id in s.tasks
  {
    var boardId := s.tasks[id].boardId;
    if req.dependsOn.None? then Success(DepEdit(None, BlockersOf(s, id)))
    else if s.tasks[id].status == Done then Failure(DependenciesFrozen)
    else match Validated(s.tasks, s.rows, boardId, id, req.dependsOn.value)
      case Failure(e) => Failure(BadDependencies(e))
      case Success(deps) => Success(DepEdit(Some(deps), BlockedBy(s.tasks, boardId, set d | d in deps)))
  }

  /** A user cannot move a blocked task anywhere but the inbox, unless it is done and stays done. */
  predicate ForcedToInbox(previous: Task, req: TaskUpdate, blockers: set<Id>) {
    && blockers != {}
    && !(previous.status == Done && (req.status.None? || req.status.value == Done))
  }

  function ByUser(previous: Task, req: TaskUpdate, forced: bool, now: Time): Task {
    if forced then Task(previous.boardId, Inbox, None, None, None)
    else
      var keepsAssignee := req.status.None? || req.status.value == InProgress || req.status.value == Done;
      var leaves := req.status == Some(Inbox) || req.status == Some(Review);
      Task(
        previous.boardId,
        if req.status.Some? then req.status.value else previous.status,
        if req.assignee.Some? then req.assignee.value else if keepsAssignee then previous.assignedAgentId else None,
        if leaves then None else if req.status == Some(InProgress) then Some(now) else previous.inProgressAt,
        if leaves then previous.inProgressAt else previous.previousInProgressAt)
  }

  function AssigneeProblem(s: State, boardId: Id, assignee: Option<Option<Id>>, leadForbidden: bool): Option<Reject> {
    if assignee.None? || assignee.value.None? then None
    else if assignee.value.value !in s.agents then Some(AgentNotFound)
    else
      var agent := s.agents[assignee.value.value];
      if leadForbidden && agent.isBoardLead then Some(AgentIsLead)
      else if agent.boardId.Some? && agent.boardId.value != boardId then Some(AgentOnOtherBoard)
      else None
  }

  ghost function UserChange(s: State, id: Id, req: TaskUpdate, now: Time): Result<Change, Reject>
    requires id in s.tasks
  {
    var previous := s.tasks[id];
    if req.tagsInvalid then Failure(BadTags)
    else match DependencyEdit(s, id, req)
      case Failure(e) => Failure(e)
      case Success(edit) =>
        var forced := ForcedToInbox(previous, req, edit.blockers);
        var problem := AssigneeProblem(s, previous.boardId, if forced then None else req.assignee, false);
        if problem.Some? then Failure(problem.value)
        else Success(Change(ByUser(previous, req, forced, now), if forced then Some(Inbox) else req.status,
          edit.dependencies))
  }

  function ByLead(previous: Task, req: TaskUpdate): Task {
    if req.status == Some(Inbox) then previous.(status := Inbox, assignedAgentId := None, inProgressAt := None)
    else previous.(
      status := if req.status.Some? then req.status.value else previous.status,
      assignedAgentId := if req.assignee.Some? then req.assignee.value else previous.assignedAgentId)
  }

  ghost function LeadChange(s: State, id: Id, req: TaskUpdate): Result<Change, Reject>
    requires id in s.tasks
  {
    var previous := s.tasks[id];
    if req.comment then Failure(CommentForbidden)
    else if req.otherFields then Failure(FieldForbidden)
    else match DependencyEdit(s, id, req)
      case Failure(e) => Failure(e)
      case Success(edit) =>
        if req.tagsInvalid then Failure(BadTags)
        else if edit.blockers != {} && (req.assignee.Some? || req.status.Some?) then Failure(Blocked(edit.blockers))
        else
          var problem := AssigneeProblem(s, previous.boardId, req.assignee, true);
          if problem.Some? then Failure(problem.value)
          else if req.status.Some? && previous.status != Review then Failure(StatusGate)
          else if req.status.Some? && req.status.value != Done && req.status.value != Inbox then
            Failure(StatusTargetGate)
          else Success(Change(ByLead(previous, req), None, edit.dependencies))
  }

  /** Entering review needs a comment, new or recent, by the assignee. Leads do not pass here. */
  predicate ReviewNeedsComment(s: State, id: Id, previous: Task, req: TaskUpdate, change: Change) {
    && change.statusEntry == Some(Review)
    && !req.comment
    && !HasRecentComment(s, id,
          if change.task.assignedAgentId.Some? then change.task.assignedAgentId else previous.assignedAgentId,
          if change.task.previousInProgressAt.Some? then change.task.previousInProgressAt else previous.inProgressAt)
  }

  predicate IsLead(actor: Actor) { actor.AgentActor? && actor.agent.isBoardLead }

  function ActorAgent(actor: Actor): Option<Id> { if actor.AgentActor? then Some(actor.id) else None }

  ghost function RequestedChange(s: State, actor: Actor, id: Id, req: TaskUpdate, now: Time): Result<Change, Reject>
    requires id in s.tasks
  {
    match actor
    case User(hasWriteAccess) => if !hasWriteAccess then Failure(WriteAccessDenied) else UserChange(s, id, req, now)
    case AgentActor(agentId, agent) =>
      if agent.isBoardLead then LeadChange(s, id, req) else AgentChange(s, id, agentId, agent, req, now)
  }

  /** The change of an accepted update, or why it is rejected. */
  ghost function UpdateOutcome(s: State, actor: Actor, id: Id, req: TaskUpdate, now: Time): Result<Change, Reject> {
    if id !in s.tasks then Failure(NotFound)
    else match RequestedChange(s, actor, id, req, now)
      case Failure(e) => Failure(e)
      case Success(change) =>
        var gate := Gates(s, id, s.tasks[id], change.task.status, StatusRequested(s.tasks[id], req));
        if gate.Some? then Failure(gate.value)
        else if ReviewNeedsComment(s, id, s.tasks[id], req, change) then Failure(CommentRequired)
        else if req.customFieldsInvalid then Failure(BadCustomFields)
        else Success(change)
  }

  // ---------------------------------------------------------------------------
  // Effects
  // ---------------------------------------------------------------------------

  function Reset(task: Task): Task {
    task.(status := Inbox, assignedAgentId := None, inProgressAt := None)
  }

  predicate Reopened(previousStatus: Status, status: Status) { previousStatus == Done && status != Done }

  /** The tasks that `_reconcile_dependents_for_dependency_toggle` visits and does not skip. */
  function OpenDependents(tasks: Tasks, rows: Rows, boardId: Id, id: Id): set<Id> {
    set t | t in DependentTaskIds(rows, boardId, id) && t in BoardTasks(tasks, boardId) && tasks[t].status != Done
  }

  function ResetAmong(tasks: Tasks, ids: set<Id>): Tasks {
    map t | t in tasks :: if t in ids && tasks[t].status != Done then Reset(tasks[t]) else tasks[t]
  }

  /** One level of dependents goes back to the inbox when the task is no longer done. */
  function Cascaded(tasks: Tasks, rows: Rows, id: Id, previousStatus: Status): Tasks
    requires id in tasks
  {
    if !Reopened(previousStatus, tasks[id].status) then tasks
    else ResetAmong(tasks, OpenDependents(tasks, rows, tasks[id].boardId, id))
  }

  function Stored(s: State, actor: Actor, id: Id, req: TaskUpdate, change: Change, now: Time): State
    requires id in s.tasks
  {
    var rows := if change.dependencies.Some?
      then Replaced(s.rows, s.tasks[id].boardId, id, change.dependencies.value) else s.rows;
    s.(
      rows := rows,
      tasks := Cascaded(s.tasks[id := change.task], rows, id, s.tasks[id].status),
      comments := s.comments + if req.comment then {Comment(id, ActorAgent(actor), now)} else {})
  }

  ghost function Updated(s: State, actor: Actor, id: Id, req: TaskUpdate, now: Time): State {
    var outcome := UpdateOutcome(s, actor, id, req, now);
    if outcome.Failure? then s else Stored(s, actor, id, req, outcome.value, now)
  }

  // ---------------------------------------------------------------------------
  // Creating and deleting tasks
  // ---------------------------------------------------------------------------

  /** A create request; leads and users share it, with extra assignee checks for leads. */
  datatype TaskCreate = TaskCreate(
    boardId: Id,
    status: Status,
    assignee: Option<Id>,
    dependsOn: seq<Id>,
    byLead: bool,
    tagsInvalid: bool,
    customFieldsInvalid: bool)

  /** The normalized dependencies of an accepted create. An assignee that does not exist breaks a foreign key. */
  ghost function CreateOutcome(s: State, id: Id, req: TaskCreate): Result<seq<Id>, Reject> {
    match Validated(s.tasks, s.rows, req.boardId, id, req.dependsOn)
    case Failure(e) => Failure(BadDependencies(e))
    case Success(deps) =>
      var blockers := BlockedBy(s.tasks, req.boardId, set d | d in deps);
      if req.tagsInvalid then Failure(BadTags)
      else if blockers != {} && (req.assignee.Some? || req.status != Inbox) then Failure(Blocked(blockers))
      else if req.assignee.Some? && req.assignee.value !in s.agents then Failure(AgentNotFound)
      else if req.byLead && AssigneeProblem(s, req.boardId, Some(req.assignee), true).Some? then
        Failure(AssigneeProblem(s, req.boardId, Some(req.assignee), true).value)
      else if req.customFieldsInvalid then Failure(BadCustomFields)
      else Success(deps)
  }

  function NewTask(req: TaskCreate): Task {
    Task(req.boardId, req.status, req.assignee, None, None)
  }

  ghost function Created(s: State, id: Id, req: TaskCreate): State {
    match CreateOutcome(s, id, req)
    case Failure(_) => s
    case Success(deps) => s.(tasks := s.tasks[id := NewTask(req)], rows := s.rows + RowsFor(req.boardId, id, deps))
  }

  function Deleted(s: State, id: Id): State {
    s.(
      tasks := s.tasks - {id},
      rows := WithoutTask(s.rows, id),
      approvals := TaskDeletion.AfterTaskDelete(s.approvals, id),
      comments := set c | c in s.comments && c.taskId != id)
  }

  /** A task once its agent is gone: work in progress goes back to the inbox, anything else is just unassigned. */
  function Released(task: Task, agentId: Id): Task {
    if task.assignedAgentId != Some(agentId) then task
    else if task.status == InProgress then Reset(task)
    else task.(assignedAgentId := None)
  }

  /** Deleting an agent asks no gate and resets no dependents. */
  function AgentDeleted(s: State, agentId: Id): State {
    s.(
      tasks := map t | t in s.tasks :: Released(s.tasks[t], agentId),
      agents := s.agents - {agentId},
      comments := Anonymized(s.comments, agentId))
  }

  function Anonymized(comments: set<Comment>, agentId: Id): set<Comment> {
    set c | c in comments :: if c.agentId == Some(agentId) then c.(agentId := None) else c
  }

  // ---------------------------------------------------------------------------
  // The request handlers
  // ---------------------------------------------------------------------------

  /** The row being edited and the entries of the `updates` dictionary that the rules rewrite. */
  class TaskUpdateInput {
    const id: Id
    const previous: Task
    const statusRequested: bool
    var task: Task
    var statusEntry: Option<Status>
    var assignedEntry: Option<Option<Id>>

    constructor (id: Id, task: Task, req: TaskUpdate)
      ensures this.id == id && previous == task && this.task == task
      ensures statusRequested == StatusRequested(task, req)
      ensures statusEntry == req.status && assignedEntry == req.assignee
    {
      this.id, this.previous, this.task := id, task, task;
      this.statusRequested := req.status.Some? && req.status.value != task.status;
      this.statusEntry, this.assignedEntry := req.status, req.assignee;
    }

    /** The row once every entry of the updates has been assigned to it. */
    function Assigned(): Task
      reads this
    {
      task.(
        status := if statusEntry.Some? then statusEntry.value else task.status,
        assignedAgentId := if assignedEntry.Some? then assignedEntry.value else task.assignedAgentId)
    }

    method SetAttributes()
      modifies this
      ensures task == old(Assigned()) && statusEntry == old(statusEntry) && assignedEntry == old(assignedEntry)
    {
      if statusEntry.Some? {
        task := task.(status := statusEntry.value);
      }
      if assignedEntry.Some? {
        task := task.(assignedAgentId := assignedEntry.value);
      }
    }
  }

  class Session {
    var db: State

    constructor (db: State)
      ensures this.db == db
    {
      this.db := db;
    }

    /** `_apply_non_lead_agent_task_rules`. */
    method ApplyNonLeadAgentTaskRules(update: TaskUpdateInput, agentId: Id, agent: Agent, req: TaskUpdate, now: Time)
      returns (reject: Option<Reject>)
      requires update.id in db.tasks && update.previous == update.task == db.tasks[update.id]
      requires update.statusEntry == req.status && update.assignedEntry == req.assignee
      modifies update
      ensures reject.Some? ==> AgentChange(db, update.id, agentId, agent, req, now) == Failure(reject.value)
      ensures reject.None? ==>
        AgentChange(db, update.id, agentId, agent, req, now)
          == Success(Change(update.Assigned(), update.statusEntry, None))
    {
      if agent.boardId.Some? && agent.boardId.value != update.task.boardId {
        return Some(BoardMismatch);
      }
      if update.task.assignedAgentId.Some? && update.task.assignedAgentId.value != agentId && update.statusEntry.Some? {
        return Some(AssigneeMismatch);
      }
      if req.dependsOn.Some? || req.tagsGiven || update.assignedEntry.Some? || req.otherFields {
        return Some(FieldForbidden);
      }
      if update.statusEntry.Some? {
        if OnlyLead(db, update.task.boardId) {
          return Some(OnlyLeadChangesStatus);
        }
        var status := update.statusEntry.value;
        if status != Inbox {
          var blocked := BlockersOf(db, update.id);
          if blocked != {} {
            return Some(Blocked(blocked));
          }
        }
        if status == Inbox {
          update.task := update.task.(assignedAgentId := None);
          update.task := update.task.(previousInProgressAt := update.task.inProgressAt);
          update.task := update.task.(inProgressAt := None);
        } else if status == Review {
          update.task := update.task.(previousInProgressAt := update.task.inProgressAt);
          update.task := update.task.(assignedAgentId := None);
          update.task := update.task.(inProgressAt := None);
        } else {
          update.task := update.task.(assignedAgentId := Some(agentId));
          if status == InProgress {
            update.task := update.task.(inProgressAt := Some(now));
          }
        }
      }
      return None;
    }

    /** The dependency part that leads and users share. A replacement changes the rows at once. */
    method EffectiveDependencies(id: Id, req: TaskUpdate) returns (r: Result<DepEdit, Reject>)
      requires id in db.tasks
      modifies this
      ensures r == DependencyEdit(old(db), id, req)
      ensures r.Failure? ==> db == old(db)
      ensures r.Success? ==> db == old(db).(rows := if r.value.dependencies.Some?
        then Replaced(old(db).rows, old(db).tasks[id].boardId, id, r.value.dependencies.value) else old(db).rows)
    {
      var boardId := db.tasks[id].boardId;
      if req.dependsOn.None? {
        return Success(DepEdit(None, BlockersOf(db, id)));
      }
      if db.tasks[id].status == Done {
        return Failure(DependenciesFrozen);
      }
      var table := new DependencyTable(db.rows);
      var replaced := table.ReplaceTaskDependencies(db.tasks, boardId, id, req.dependsOn.value);
      if replaced.Failure? {
        return Failure(BadDependencies(replaced.error));
      }
      var dependencies := replaced.value;
      db := db.(rows := table.rows);
      return Success(DepEdit(Some(dependencies), BlockedBy(db.tasks, boardId, set d | d in dependencies)));
    }

    /** `_apply_admin_task_rules`. */
    method ApplyAdminTaskRules(update: TaskUpdateInput, req: TaskUpdate, now: Time)
      returns (r: Result<Option<seq<Id>>, Reject>)
      requires update.id in db.tasks && update.previous == update.task == db.tasks[update.id]
      requires update.statusEntry == req.status && update.assignedEntry == req.assignee
      modifies this, update
      ensures r.Failure? ==> UserChange(old(db), update.id, req, now) == Failure(r.error)
      ensures r.Success? ==>
        UserChange(old(db), update.id, req, now) == Success(Change(update.Assigned(), update.statusEntry, r.value))
      ensures r.Success? ==> db == old(db).(rows := if r.value.Some?
        then Replaced(old(db).rows, update.previous.boardId, update.id, r.value.value) else old(db).rows)
    {
      if req.tagsInvalid {
        return Failure(BadTags);
      }
      var edit := EffectiveDependencies(update.id, req);
      if edit.Failure? {
        return Failure(edit.error);
      }
      var blocked := edit.value.blockers;
      var target := if update.statusEntry.Some? then update.statusEntry.value else update.task.status;
      if blocked != {} && !(update.task.status == Done && target == Done) {
        update.task := update.task.(status := Inbox);
        update.task := update.task.(assignedAgentId := None);
        update.task := update.task.(inProgressAt := None);
        update.statusEntry := Some(Inbox);
        update.assignedEntry := Some(None);
      }
      if update.statusEntry.Some? {
        var status := update.statusEntry.value;
        if status == Inbox || status == Review {
          update.task := update.task.(previousInProgressAt := update.task.inProgressAt);
          update.task := update.task.(assignedAgentId := None);
          update.task := update.task.(inProgressAt := None);
        } else if status == InProgress {
          update.task := update.task.(inProgressAt := Some(now));
        }
      }
      var problem := AssigneeProblem(db, update.task.boardId, update.assignedEntry, false);
      if problem.Some? {
        return Failure(problem.value);
      }
      return Success(edit.value.dependencies);
    }

    /** The rules of `_apply_lead_task_update` before the gates: fields, blockers, assignment, status. */
    method ApplyLeadTaskRules(update: TaskUpdateInput, req: TaskUpdate) returns (r: Result<Option<seq<Id>>, Reject>)
      requires update.id in db.tasks && update.previous == update.task == db.tasks[update.id]
      requires update.statusEntry == req.status && update.assignedEntry == req.assignee
      modifies this, update
      ensures r.Failure? ==> LeadChange(old(db), update.id, req) == Failure(r.error)
      ensures r.Success? ==> LeadChange(old(db), update.id, req) == Success(Change(update.task, None, r.value))
      ensures r.Success? ==> db == old(db).(rows := if r.value.Some?
        then Replaced(old(db).rows, update.previous.boardId, update.id, r.value.value) else old(db).rows)
    {
      if req.comment {
        return Failure(CommentForbidden);
      }
      if req.otherFields {
        return Failure(FieldForbidden);
      }
      var edit := EffectiveDependencies(update.id, req);
      if edit.Failure? {
        return Failure(edit.error);
      }
      if req.tagsInvalid {
        return Failure(BadTags);
      }
      if edit.value.blockers != {} {
        if update.assignedEntry.Some? || update.statusEntry.Some? {
          return Failure(Blocked(edit.value.blockers));
        }
      }
      if update.assignedEntry.Some? {
        var problem := AssigneeProblem(db, update.task.boardId, update.assignedEntry, true);
        if problem.Some? {
          return Failure(problem.value);
        }
        update.task := update.task.(assignedAgentId := update.assignedEntry.value);
      }
      if update.statusEntry.Some? {
        if update.task.status != Review {
          return Failure(StatusGate);
        }
        var target := update.statusEntry.value;
        if target != Done && target != Inbox {
          return Failure(StatusTargetGate);
        }
        if target == Inbox {
          update.task := update.task.(assignedAgentId := None);
          update.task := update.task.(inProgressAt := None);
        }
        update.task := update.task.(status := target);
      }
      return Success(edit.value.dependencies);
    }

    /** The three gates; the pending-approval one asks the conflict query about this one task. */
    method RunGates(update: TaskUpdateInput) returns (reject: Option<Reject>)
      ensures reject == Gates(db, update.id, update.previous, update.task.status, update.statusRequested)
    {
      var boardId := update.previous.boardId;
      if update.statusRequested && update.previous.status != update.task.status {
        if BlocksStatusChanges(db, boardId) {
          var conflicts := Approvals.PendingApprovalConflictsByTask(db.approvals, boardId, [update.id], None);
          if update.id in conflicts {
            return Some(PendingApprovalBlocks);
          }
        }
      }
      if update.previous.status != Done && update.task.status == Done {
        if RequiresReview(db, boardId) && update.previous.status != Review {
          return Some(ReviewRequired);
        }
        if RequiresApproval(db, boardId) && !HasApprovedApproval(db, boardId, update.id) {
          return Some(ApprovalRequired);
        }
      }
      return None;
    }

    /** `_reconcile_dependents_for_dependency_toggle`. */
    method ReconcileDependents(id: Id, previousStatus: Status)
      requires id in db.tasks
      modifies this
      ensures db == old(db).(tasks := Cascaded(old(db).tasks, old(db).rows, id, previousStatus))
    {
      var task := db.tasks[id];
      var toggled := (previousStatus == Done) != (task.status == Done);
      if !toggled {
        return;
      }
      var reopened := previousStatus == Done && task.status != Done;
      var dependents := set t |
        t in DependentTaskIds(db.rows, task.boardId, id) && t in BoardTasks(db.tasks, task.boardId);
      var todo := dependents;
      while todo != {}
        invariant todo <= dependents
        invariant db == old(db).(tasks := db.tasks)
        invariant !reopened ==> db.tasks == old(db).tasks
        invariant reopened ==> db.tasks == ResetAmong(old(db).tasks, dependents - todo)
        decreases todo
      {
        var d :| d in todo;
        todo := todo - {d};
        var dependent := db.tasks[d];
        if dependent.status != Done && reopened {
          var shouldReset :=
            dependent.status != Inbox || dependent.assignedAgentId.Some? || dependent.inProgressAt.Some?;
          if shouldReset {
            db := db.(tasks := db.tasks[d := Reset(dependent)]);
          }
        }
      }
    }

    /** The actor path; afterwards the row carries every entry of the updates. */
    method ApplyRules(update: TaskUpdateInput, actor: Actor, req: TaskUpdate, now: Time)
      returns (r: Result<Option<seq<Id>>, Reject>)
      requires update.id in db.tasks && update.previous == update.task == db.tasks[update.id]
      requires update.statusEntry == req.status && update.assignedEntry == req.assignee
      modifies this, update
      ensures r.Failure? ==> RequestedChange(old(db), actor, update.id, req, now) == Failure(r.error)
      ensures r.Success? ==>
        RequestedChange(old(db), actor, update.id, req, now) ==
          Success(Change(update.task, update.statusEntry, r.value))
      ensures r.Success? ==> db == old(db).(rows := if r.value.Some?
        then Replaced(old(db).rows, update.previous.boardId, update.id, r.value.value) else old(db).rows)
    {
      if actor.User? {
        if !actor.hasWriteAccess {
          return Failure(WriteAccessDenied);
        }
        r := ApplyAdminTaskRules(update, req, now);
        update.SetAttributes();
      } else if actor.agent.isBoardLead {
        r := ApplyLeadTaskRules(update, req);
        update.statusEntry := None;
      } else {
        var reject := ApplyNonLeadAgentTaskRules(update, actor.id, actor.agent, req, now);
        if reject.Some? {
          return Failure(reject.value);
        }
        update.SetAttributes();
        r := Success(None);
      }
    }

    /** The checks that run once the row has its new values. */
    method CheckUpdatedTask(update: TaskUpdateInput, req: TaskUpdate, ghost change: Change)
      returns (reject: Option<Reject>)
      requires change.task == update.task && change.statusEntry == update.statusEntry
      requires update.statusRequested == StatusRequested(update.previous, req)
      ensures var gate := Gates(db, update.id, update.previous, change.task.status,
        StatusRequested(update.previous, req));
        reject == if gate.Some? then gate
          else if ReviewNeedsComment(db, update.id, update.previous, req, change) then Some(CommentRequired)
          else if req.customFieldsInvalid then Some(BadCustomFields)
          else None
    {
      var gate := RunGates(update);
      if gate.Some? {
        return gate;
      }
      if update.statusEntry == Some(Review) {
        var author :=
          if update.task.assignedAgentId.Some? then update.task.assignedAgentId else update.previous.assignedAgentId;
        var since :=
          if update.task.previousInProgressAt.Some? then update.task.previousInProgressAt
          else update.previous.inProgressAt;
        if !req.comment && !HasRecentComment(db, update.id, author, since) {
          return Some(CommentRequired);
        }
      }
      return if req.customFieldsInvalid then Some(BadCustomFields) else None;
    }

    /** `update_task`: a rejected request rolls the session back. */
    method UpdateTask(actor: Actor, id: Id, req: TaskUpdate, now: Time) returns (r: Result<(), Reject>)
      modifies this
      ensures db == Updated(old(db), actor, id, req, now)
      ensures r == match UpdateOutcome(old(db), actor, id, req, now)
        case Failure(e) => Failure(e)
        case Success(_) => Success(())
    {
      var before := db;
      if id !in db.tasks {
        return Failure(NotFound);
      }
      var update := new TaskUpdateInput(id, db.tasks[id], req);
      var rules := ApplyRules(update, actor, req, now);
      if rules.Failure? {
        db := before;
        return Failure(rules.error);
      }
      ghost var change := Change(update.task, update.statusEntry, rules.value);
      QueriesIgnoreRows(before, db, id, update.previous, req, change);
      var reject := CheckUpdatedTask(update, req, change);
      if reject.Some? {
        db := before;
        return Failure(reject.value);
      }
      db := db.(tasks := db.tasks[id := update.task]);
      if req.comment {
        db := db.(comments := db.comments + {Comment(id, ActorAgent(actor), now)});
      }
      ReconcileDependents(id, update.previous.status);
      assert db.comments == Stored(before, actor, id, req, change, now).comments;
      return Success(());
    }

    /** `create_task` for users and for leads; `id` is the new row's identifier. */
    method CreateTask(id: Id, req: TaskCreate) returns (r: Result<(), Reject>)
      requires id !in db.tasks
      modifies this
      ensures db == Created(old(db), id, req)
      ensures r == match CreateOutcome(old(db), id, req)
        case Failure(e) => Failure(e)
        case Success(_) => Success(())
    {
      var deps := ValidateDependencyUpdate(db.tasks, db.rows, req.boardId, id, req.dependsOn);
      if deps.Failure? {
        return Failure(BadDependencies(deps.error));
      }
      if req.tagsInvalid {
        return Failure(BadTags);
      }
      var blockers := BlockedBy(db.tasks, req.boardId, set d | d in deps.value);
      if blockers != {} && (req.assignee.Some? || req.status != Inbox) {
        return Failure(Blocked(blockers));
      }
      if req.assignee.Some? {
        if req.assignee.value !in db.agents {
          return Failure(AgentNotFound);
        }
        if req.byLead {
          var problem := AssigneeProblem(db, req.boardId, Some(req.assignee), true);
          if problem.Some? {
            return Failure(problem.value);
          }
        }
      }
      if req.customFieldsInvalid {
        return Failure(BadCustomFields);
      }
      var rows := db.rows;
      for i := 0 to |deps.value|
        invariant rows == db.rows + RowsFor(req.boardId, id, deps.value[..i])
      {
        assert deps.value[..i + 1] == deps.value[..i] + [deps.value[i]];
        rows := rows + {TaskDependency(req.boardId, id, deps.value[i])};
      }
      assert deps.value[..|deps.value|] == deps.value;
      db := db.(tasks := db.tasks[id := NewTask(req)], rows := rows);
      return Success(());
    }

    method DeleteTask(id: Id)
      requires Approvals.WellFormed(db.approvals)
      modifies this
      ensures db == Deleted(old(db), id)
      ensures forall c :: c in db.comments <==> c in old(db).comments && c.taskId != id
      ensures forall r :: r in db.rows <==> r in old(db).rows && r.taskId != id && r.dependsOnTaskId != id
    {
      var tables := new TaskDeletion.Database(db.tasks, db.rows, db.approvals);
      tables.DeleteTaskAndRelatedRecords(id);
      db := db.(
        tasks := tables.tasks, rows := tables.dependencies, approvals := tables.approvals,
        comments := set c | c in db.comments && c.taskId != id);
    }

    /** What the deletion of an agent does to the workflow's tables once the gateway has let the agent go. */
    method DeleteAgent(agentId: Id)
      modifies this
      ensures db == AgentDeleted(old(db), agentId)
    {
      var tasks := db.tasks;
      tasks := map t | t in tasks ::
        if tasks[t].assignedAgentId == Some(agentId) && tasks[t].status == InProgress
          then Reset(tasks[t]) else tasks[t];
      tasks := map t | t in tasks ::
        if tasks[t].assignedAgentId == Some(agentId) && tasks[t].status != InProgress
        then tasks[t].(assignedAgentId := None) else tasks[t];
      assert tasks == map t | t in db.tasks :: Released(db.tasks[t], agentId);
      db := db.(tasks := tasks);
      db := db.(comments := Anonymized(db.comments, agentId));
      db := db.(agents := db.agents - {agentId});
    }
  }

  /** A dependency edit made earlier in the request does not change what the gates and the comment check read. */
  lemma {:induction false} QueriesIgnoreRows(s: State, s': State, id: Id,
    previous: Task, req: TaskUpdate, change: Change)
    requires s' == s.(rows := s'.rows)
    ensures forall target, requested ::
      Gates(s', id, previous, target, requested) == Gates(s, id, previous, target, requested)
    ensures ReviewNeedsComment(s', id, previous, req, change) == ReviewNeedsComment(s, id, previous, req, change)
  {
  }
}
