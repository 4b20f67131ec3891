/** The rows the backend stores, one datatype per table, and the two result types the modules share. */
module Models {

  /** Row identifiers (UUIDs in the database) and instants. Both are compared by the code, never inspected. */
  type Id = nat
  type Time = int

  datatype Option<+T> = None | Some(value: T)

  datatype Result<+T, +E> = Success(value: T) | Failure(error: E)

  datatype Status = Inbox | InProgress | Review | Done

  datatype Task = Task(
    boardId: Id,
    status: Status,
    assignedAgentId: Option<Id>,
    inProgressAt: Option<Time>,
    previousInProgressAt: Option<Time>)

  datatype TaskDependency = TaskDependency(boardId: Id, taskId: Id, dependsOnTaskId: Id)

  datatype Agent = Agent(boardId: Option<Id>, isBoardLead: bool)

  datatype Board = Board(
    requireApprovalForDone: bool,
    requireReviewBeforeDone: bool,
    blockStatusChangesWithPendingApproval: bool,
    onlyLeadCanChangeStatus: bool)

  datatype ApprovalStatus = Pending | Approved | Rejected

  datatype Approval = Approval(boardId: Id, taskId: Option<Id>, status: ApprovalStatus, createdAt: Time)

  predicate NoDuplicates(ids: seq<Id>) {
    forall i, j :: 0 <= i < j < |ids| ==> ids[i] != ids[j]
  }

  /** `firsts` lists the ids of `ids` by their first occurrence: before each one stands what stands before it there. */
  ghost predicate FirstOccurrences(ids: seq<Id>, firsts: seq<Id>) {
    && NoDuplicates(firsts)
    && (forall x :: x in ids <==> x in firsts)
    && forall j :: 0 <= j < |firsts| ==> IsFirstAt(ids, firsts, j)
  }

  ghost predicate IsFirstAt(ids: seq<Id>, firsts: seq<Id>, j: nat)
    requires j < |firsts|
  {
    exists p :: 0 <= p < |ids| && ids[p] == firsts[j] && forall x :: x in ids[..p] <==> x in firsts[..j]
  }

  /** Distinct items of a finite set are no more than it has. */
  lemma {:induction false} DistinctFit<T>(items: seq<T>, within: set<T>)
    requires forall i :: 0 <= i < |items| ==> items[i] in within
    requires forall i, j :: 0 <= i < j < |items| ==> items[i] != items[j]
    ensures |items| <= |within|
  {
    if items != [] {
      DistinctFit(items[1..], within - {items[0]});
    }
  }
}
