/** Task dependencies: the cycle check, the validation of an edit, and why the board graphs stay acyclic.
    Models backend/app/services/task_dependencies.py. */
module TaskDependencies {
  import opened Models

  // ---------------------------------------------------------------------------
  // Walks and cycles in a successor map
  // ---------------------------------------------------------------------------

  type Edges = map<Id, set<Id>>

  function Successors(edges: Edges, node: Id): set<Id> {
    if node in edges then edges[node] else {}
  }

  ghost predicate IsWalk(edges: Edges, walk: seq<Id>) {
    && |walk| > 0
    && forall i :: 0 <= i < |walk| - 1 ==> walk[i + 1] in Successors(edges, walk[i])
  }

  /** A walk that ends on a node it has already passed: a path followed by a directed cycle. */
  ghost predicate IsLasso(edges: Edges, walk: seq<Id>) {
    && IsWalk(edges, walk)
    && exists k :: 0 <= k < |walk| - 1 && walk[k] == walk[|walk| - 1]
  }

  ghost predicate ReachesCycle(edges: Edges, start: Id) {
    exists walk :: IsLasso(edges, walk) && walk[0] == start
  }

  ghost predicate Acyclic(edges: Edges) {
    forall start :: !ReachesCycle(edges, start)
  }

  /** Dropping the first node of a lasso leaves a lasso, unless the cycle goes through that node. */
  lemma {:induction false} LassoTail(edges: Edges, walk: seq<Id>)
    requires IsLasso(edges, walk)
    requires walk[0] !in walk[1..]
    ensures IsLasso(edges, walk[1..])
  {
    var k :| 0 <= k < |walk| - 1 && walk[k] == walk[|walk| - 1];
    var tail := walk[1..];
    assert walk[|walk| - 1] == tail[|tail| - 1];
    assert tail[k - 1] == tail[|tail| - 1];
    forall i | 0 <= i < |tail| - 1 ensures tail[i + 1] in Successors(edges, tail[i]) {
      assert walk[i + 2] in Successors(edges, walk[i + 1]);
    }
  }

  lemma {:induction false} LassoReaches(edges: Edges, walk: seq<Id>)
    requires IsLasso(edges, walk)
    ensures ReachesCycle(edges, walk[0])
  {
  }

  /** The first steps of a lasso follow edges. */
  lemma {:induction false} LassoSteps(edges: Edges, walk: seq<Id>)
    requires IsLasso(edges, walk)
    ensures walk[1] in Successors(edges, walk[0])
    ensures |walk| > 2 ==> walk[2] in Successors(edges, walk[1])
  {
  }

  /** A walk cannot leave a set that is closed under successors. */
  lemma {:induction false} WalkStaysInside(edges: Edges, walk: seq<Id>, inside: set<Id>, i: nat)
    requires IsWalk(edges, walk) && walk[0] in inside && i < |walk|
    requires forall n | n in inside :: Successors(edges, n) <= inside
    ensures walk[i] in inside
  {
    if i > 0 {
      WalkStaysInside(edges, walk, inside, i - 1);
      assert walk[i] in Successors(edges, walk[i - 1]);
    }
  }

  // ---------------------------------------------------------------------------
  // The depth-first cycle check
  // ---------------------------------------------------------------------------

  /** The nested function `dfs` and the two sets it shares with every start node. */
  class CycleSearch {
    const edges: Edges
    var visited: set<Id>
    var inStack: set<Id>

    constructor (edges: Edges)
      ensures this.edges == edges && visited == {} && inStack == {}
    {
      this.edges := edges;
      visited, inStack := {}, {};
    }

    /** The nodes whose exploration is over. */
    ghost function Finished(): set<Id>
      reads this
    {
      visited - inStack
    }

    /** Exploration that is over has found nothing, and has nowhere left to go. */
    ghost predicate FinishedIsClear()
      reads this
    {
      forall n | n in Finished() :: Successors(edges, n) <= Finished() && !ReachesCycle(edges, n)
    }

    /** `stack` is the chain of open calls that led to `current`. */
    ghost predicate IsCallChain(stack: seq<Id>, current: Id)
      reads this
    {
      && (forall n :: n in inStack <==> n in stack)
      && inStack <= visited
      && IsWalk(edges, stack + [current])
    }

    method Dfs(current: Id, ghost stack: seq<Id>, ghost universe: set<Id>) returns (found: bool)
      requires IsCallChain(stack, current) && FinishedIsClear()
      requires visited <= universe && current in universe
      requires forall n | n in universe :: Successors(edges, n) <= universe
      modifies this
      ensures found ==> ReachesCycle(edges, (stack + [current])[0])
      ensures !found ==> inStack == old(inStack) && old(visited) <= visited <= universe
      ensures !found ==> current in Finished() && FinishedIsClear()
      decreases universe - visited
    {
      if current in inStack {
        ghost var k :| 0 <= k < |stack| && stack[k] == current;
        assert (stack + [current])[k] == current;
        assert IsLasso(edges, stack + [current]);
        return true;
      }
      if current in visited {
        return false;
      }
      visited := visited + {current};
      inStack := inStack + {current};
      ghost var open := stack + [current];
      var todo := Successors(edges, current);
      while todo != {}
        invariant todo <= Successors(edges, current)
        invariant inStack == old(inStack) + {current}
        invariant old(visited) + {current} <= visited <= universe
        invariant FinishedIsClear() && Successors(edges, current) - todo <= Finished()
        decreases todo
      {
        var nxt :| nxt in todo;
        todo := todo - {nxt};
        assert IsWalk(edges, open + [nxt]);
        assert (open + [nxt])[0] == (stack + [current])[0];
        ghost var before := visited;
        ghost var done := Finished();
        assert IsCallChain(open, nxt);
        var hit := Dfs(nxt, open, universe);
        if hit {
          return true;
        }
        assert done <= Finished();
      }
      ghost var closed := Finished();
      CurrentIsClear(current, closed);
      inStack := inStack - {current};
      assert Finished() == closed + {current};
      return false;
    }

    /** When every successor of an open node is finished, the node itself reaches no cycle. */
    lemma {:induction false} CurrentIsClear(current: Id, closed: set<Id>)
      requires closed == Finished() && FinishedIsClear()
      requires current !in closed && Successors(edges, current) <= closed
      ensures !ReachesCycle(edges, current)
    {
      forall walk | IsLasso(edges, walk) && walk[0] == current ensures false {
        assert walk[1] in Successors(edges, walk[0]);
        var tail := walk[1..];
        assert IsWalk(edges, tail) by {
          forall i | 0 <= i < |tail| - 1 ensures tail[i + 1] in Successors(edges, tail[i]) {
            assert walk[i + 2] in Successors(edges, walk[i + 1]);
          }
        }
        forall i | 0 <= i < |tail| ensures tail[i] in closed {
          WalkStaysInside(edges, tail, closed, i);
        }
        LassoTail(edges, walk);
        assert ReachesCycle(edges, walk[1]);
      }
    }
  }

  /** `_has_cycle`: the first start node that finds a cycle ends the search. */
  method HasCycle(nodes: seq<Id>, edges: Edges) returns (found: bool)
    ensures found <==> exists start | start in nodes :: ReachesCycle(edges, start)
  {
    var search := new CycleSearch(edges);
    ghost var universe: set<Id> :=
      (set n | n in nodes) + edges.Keys + (set n, m | n in edges && m in edges[n] :: m);
    for i := 0 to |nodes|
      invariant search.inStack == {} && search.visited <= universe
      invariant search.FinishedIsClear()
      invariant forall j :: 0 <= j < i ==> nodes[j] in search.visited
    {
      assert IsWalk(edges, [] + [nodes[i]]);
      var hit := search.Dfs(nodes[i], [], universe);
      if hit {
        return true;
      }
    }
    return false;
  }

  // ---------------------------------------------------------------------------
  // Dependency rows
  // ---------------------------------------------------------------------------

  type Tasks = map<Id, Task>
  type Rows = set<TaskDependency>

  datatype DependencyError = SelfDependency | MissingTasks(ids: seq<Id>) | DependencyCycle

  function DependsOn(rows: Rows, boardId: Id, taskId: Id): set<Id> {
    set r | r in rows && r.boardId == boardId && r.taskId == taskId :: r.dependsOnTaskId
  }

  function BoardTasks(tasks: Tasks, boardId: Id): set<Id> {
    set t | t in tasks && tasks[t].boardId == boardId
  }

  function BoardEdges(rows: Rows, boardId: Id): Edges {
    map t | t in (set r | r in rows && r.boardId == boardId :: r.taskId) :: DependsOn(rows, boardId, t)
  }

  /** `dependent_task_ids`. */
  function DependentTaskIds(rows: Rows, boardId: Id, dependsOn: Id): set<Id> {
    set r | r in rows && r.boardId == boardId && r.dependsOnTaskId == dependsOn :: r.taskId
  }

  /** The ids among `dependencies` whose task is not a done task of the board: `dependency_status_by_id`
      followed by `blocked_by_dependency_ids`. */
  function BlockedBy(tasks: Tasks, boardId: Id, dependencies: set<Id>): set<Id> {
    set d | d in dependencies && !(d in tasks && tasks[d].boardId == boardId && tasks[d].status == Done)
  }

  ghost predicate Consistent(tasks: Tasks, rows: Rows) {
    forall r | r in rows ::
      && r.taskId in tasks && tasks[r.taskId].boardId == r.boardId
      && r.dependsOnTaskId in tasks && tasks[r.dependsOnTaskId].boardId == r.boardId
  }

  ghost predicate AllAcyclic(rows: Rows) {
    forall b :: Acyclic(BoardEdges(rows, b))
  }

  lemma {:induction false} BoardSuccessors(rows: Rows, boardId: Id, taskId: Id)
    ensures Successors(BoardEdges(rows, boardId), taskId) == DependsOn(rows, boardId, taskId)
  {
  }

  // ---------------------------------------------------------------------------
  // Validating and replacing the dependencies of a task
  // ---------------------------------------------------------------------------

  /** First occurrences, in order. */
  function Deduped(values: seq<Id>): (r: seq<Id>)
    ensures forall v :: v in r <==> v in values
    ensures forall i, j :: 0 <= i < j < |r| ==> r[i] != r[j]
    ensures values == [] <==> r == []
  {
    if values == [] then []
    else
      var rest, last := values[..|values| - 1], values[|values| - 1];
      assert values == rest + [last];
      if last in rest then Deduped(rest) else Deduped(rest) + [last]
  }

  lemma {:induction false} DedupedIsFirst(values: seq<Id>)
    ensures FirstOccurrences(values, Deduped(values))
  {
    if values != [] {
      var rest, last, r := values[..|values| - 1], values[|values| - 1], Deduped(values);
      DedupedIsFirst(rest);
      forall j | 0 <= j < |r| ensures IsFirstAt(values, r, j) {
        if j < |Deduped(rest)| {
          assert IsFirstAt(rest, Deduped(rest), j);
          var p :| 0 <= p < |rest| && rest[p] == Deduped(rest)[j]
            && forall x :: x in rest[..p] <==> x in Deduped(rest)[..j];
          assert values[..p] == rest[..p] && r[..j] == Deduped(rest)[..j];
        } else {
          assert values[..|rest|] == rest && r[..j] == Deduped(rest);
        }
      }
    }
  }

  method DedupeUuidList(values: seq<Id>) returns (output: seq<Id>)
    ensures output == Deduped(values) && FirstOccurrences(values, output)
  {
    var seen: set<Id> := {};
    output := [];
    for i := 0 to |values|
      invariant output == Deduped(values[..i])
      invariant forall v :: v in seen <==> v in values[..i]
    {
      assert values[..i + 1][..i] == values[..i];
      if values[i] !in seen {
        seen := seen + {values[i]};
        output := output + [values[i]];
      }
    }
    assert values[..|values|] == values;
    DedupedIsFirst(values);
  }

  function Missing(tasks: Tasks, boardId: Id, ids: seq<Id>): seq<Id> {
    if ids == [] then []
    else
      var rest := Missing(tasks, boardId, ids[..|ids| - 1]);
      var last := ids[|ids| - 1];
      if last in BoardTasks(tasks, boardId) then rest else rest + [last]
  }

  /** The board graph with the pending edit laid over it. */
  function Overlay(rows: Rows, boardId: Id, taskId: Id, dependencies: seq<Id>): Edges {
    BoardEdges(rows, boardId)[taskId := set d | d in dependencies]
  }

  ghost function Validated(tasks: Tasks, rows: Rows, boardId: Id, taskId: Id, requested: seq<Id>)
    : Result<seq<Id>, DependencyError>
  {
    if taskId in requested then Failure(SelfDependency)
    else if requested == [] then Success([])
    else if exists d | d in requested :: d !in BoardTasks(tasks, boardId) then
      Failure(MissingTasks(Missing(tasks, boardId, Deduped(requested))))
    else if exists t | t in BoardTasks(tasks, boardId) ::
        ReachesCycle(Overlay(rows, boardId, taskId, Deduped(requested)), t) then
      Failure(DependencyCycle)
    else
      Success(Deduped(requested))
  }

  lemma {:induction false} MissingIsExact(tasks: Tasks, boardId: Id, ids: seq<Id>)
    ensures forall d :: d in Missing(tasks, boardId, ids) <==> d in ids && d !in BoardTasks(tasks, boardId)
  {
    if ids != [] {
      MissingIsExact(tasks, boardId, ids[..|ids| - 1]);
      assert ids == ids[..|ids| - 1] + [ids[|ids| - 1]];
    }
  }

  /** The graph `validate_dependency_update` rebuilds row by row before it searches. */
  method BuildOverlay(rows: Rows, boardId: Id, taskId: Id, dependencies: seq<Id>) returns (edges: Edges)
    ensures edges == Overlay(rows, boardId, taskId, dependencies)
  {
    edges := map[];
    var todo := set r | r in rows && r.boardId == boardId;
    ghost var added: Rows := {};
    while todo != {}
      invariant added + todo == (set r | r in rows && r.boardId == boardId)
      invariant edges == BoardEdges(added, boardId)
      decreases todo
    {
      var row :| row in todo;
      todo := todo - {row};
      edges := edges[row.taskId := Successors(edges, row.taskId) + {row.dependsOnTaskId}];
      ghost var more := added + {row};
      assert edges == BoardEdges(more, boardId) by {
        assert edges.Keys == BoardEdges(more, boardId).Keys;
        forall t | t in edges ensures edges[t] == BoardEdges(more, boardId)[t] {
          BoardSuccessors(added, boardId, t);
        }
      }
      added := more;
    }
    assert BoardEdges(added, boardId) == BoardEdges(rows, boardId) by {
      assert BoardEdges(added, boardId).Keys == BoardEdges(rows, boardId).Keys;
      assert forall t :: DependsOn(added, boardId, t) == DependsOn(rows, boardId, t);
    }
    edges := edges[taskId := set d | d in dependencies];
  }

  method SetToSeq(s: set<Id>) returns (list: seq<Id>)
    ensures forall x :: x in list <==> x in s
  {
    list := [];
    var todo := s;
    while todo != {}
      invariant todo <= s && forall x :: x in list <==> x in s - todo
      decreases todo
    {
      var x :| x in todo;
      todo := todo - {x};
      list := list + [x];
    }
  }

  method ValidateDependencyUpdate(tasks: Tasks, rows: Rows, boardId: Id, taskId: Id, requested: seq<Id>)
    returns (r: Result<seq<Id>, DependencyError>)
    ensures r == Validated(tasks, rows, boardId, taskId, requested)
  {
    var normalized := DedupeUuidList(requested);
    if taskId in normalized {
      return Failure(SelfDependency);
    }
    if normalized == [] {
      return Success([]);
    }
    var missing := Missing(tasks, boardId, normalized);
    MissingIsExact(tasks, boardId, normalized);
    if missing != [] {
      assert missing[0] in normalized;
      return Failure(MissingTasks(missing));
    }
    var taskIds := SetToSeq(BoardTasks(tasks, boardId));
    var edges := BuildOverlay(rows, boardId, taskId, normalized);
    var cycle := HasCycle(taskIds, edges);
    if cycle {
      return Failure(DependencyCycle);
    }
    return Success(normalized);
  }

  function RowsFor(boardId: Id, taskId: Id, dependencies: seq<Id>): Rows {
    set d | d in dependencies :: TaskDependency(boardId, taskId, d)
  }

  function Replaced(rows: Rows, boardId: Id, taskId: Id, dependencies: seq<Id>): Rows {
    (set r | r in rows && !(r.boardId == boardId && r.taskId == taskId)) + RowsFor(boardId, taskId, dependencies)
  }

  /** Deleting a task removes the rows on both of its sides. */
  function WithoutTask(rows: Rows, taskId: Id): Rows {
    set r | r in rows && r.taskId != taskId && r.dependsOnTaskId != taskId
  }

  /** The table, and the delete-then-insert of `replace_task_dependencies`. */
  class DependencyTable {
    var rows: Rows

    constructor (rows: Rows)
      ensures this.rows == rows
    {
      this.rows := rows;
    }

    method ReplaceTaskDependencies(tasks: Tasks, boardId: Id, taskId: Id, requested: seq<Id>)
      returns (r: Result<seq<Id>, DependencyError>)
      modifies this
      ensures r == Validated(tasks, old(rows), boardId, taskId, requested)
      ensures r.Failure? ==> rows == old(rows)
      ensures r.Success? ==> rows == Replaced(old(rows), boardId, taskId, r.value)
    {
      r := ValidateDependencyUpdate(tasks, rows, boardId, taskId, requested);
      if r.Failure? {
        return;
      }
      rows := set row | row in rows && !(row.boardId == boardId && row.taskId == taskId);
      ghost var kept := rows;
      for i := 0 to |r.value|
        invariant rows == kept + RowsFor(boardId, taskId, r.value[..i])
      {
        assert r.value[..i + 1] == r.value[..i] + [r.value[i]];
        rows := rows + {TaskDependency(boardId, taskId, r.value[i])};
      }
      assert r.value[..|r.value|] == r.value;
    }
  }

  // ---------------------------------------------------------------------------
  // Every accepted edit keeps every board graph acyclic
  // ---------------------------------------------------------------------------

  /** A lasso survives in any graph with at least the same edges along it. */
  lemma {:induction false} LassoTransfer(few: Edges, many: Edges, walk: seq<Id>)
    requires IsLasso(few, walk)
    requires forall i :: 0 <= i < |walk| - 1 ==> Successors(few, walk[i]) <= Successors(many, walk[i])
    ensures IsLasso(many, walk)
  {
  }

  lemma {:induction false} SameCycles(a: Edges, b: Edges)
    requires forall n :: Successors(a, n) == Successors(b, n)
    ensures forall start :: ReachesCycle(a, start) <==> ReachesCycle(b, start)
  {
    forall start | ReachesCycle(a, start) ensures ReachesCycle(b, start) {
      var walk :| IsLasso(a, walk) && walk[0] == start;
      LassoTransfer(a, b, walk);
    }
    forall start | ReachesCycle(b, start) ensures ReachesCycle(a, start) {
      var walk :| IsLasso(b, walk) && walk[0] == start;
      LassoTransfer(b, a, walk);
    }
  }

  /** The overlay that is searched has the edges of the rows that would be stored. */
  lemma {:induction false} OverlayIsStored(rows: Rows, boardId: Id, taskId: Id, deps: seq<Id>)
    ensures forall n :: Successors(Overlay(rows, boardId, taskId, deps), n)
                     == Successors(BoardEdges(Replaced(rows, boardId, taskId, deps), boardId), n)
  {
    forall n ensures Successors(Overlay(rows, boardId, taskId, deps), n)
                  == Successors(BoardEdges(Replaced(rows, boardId, taskId, deps), boardId), n)
    {
      BoardSuccessors(Replaced(rows, boardId, taskId, deps), boardId, n);
      BoardSuccessors(rows, boardId, n);
    }
  }

  lemma {:induction false} FewerRowsStayAcyclic(few: Rows, many: Rows)
    requires few <= many && AllAcyclic(many)
    ensures AllAcyclic(few)
  {
    forall b, start | ReachesCycle(BoardEdges(few, b), start) ensures false {
      var walk :| IsLasso(BoardEdges(few, b), walk) && walk[0] == start;
      forall i | 0 <= i < |walk| - 1
        ensures Successors(BoardEdges(few, b), walk[i]) <= Successors(BoardEdges(many, b), walk[i])
      {
        BoardSuccessors(few, b, walk[i]);
        BoardSuccessors(many, b, walk[i]);
      }
      LassoTransfer(BoardEdges(few, b), BoardEdges(many, b), walk);
      assert ReachesCycle(BoardEdges(many, b), start);
    }
  }

  /** Only tasks of the board have dependency rows on it, so only they can reach a cycle. */
  lemma {:induction false} CyclesAreOnTheBoard(tasks: Tasks, rows: Rows, boardId: Id)
    requires forall r | r in rows && r.boardId == boardId :: r.taskId in BoardTasks(tasks, boardId)
    ensures forall start :: ReachesCycle(BoardEdges(rows, boardId), start) ==> start in BoardTasks(tasks, boardId)
  {
    forall start | ReachesCycle(BoardEdges(rows, boardId), start) ensures start in BoardTasks(tasks, boardId) {
      var walk :| IsLasso(BoardEdges(rows, boardId), walk) && walk[0] == start;
      LassoSteps(BoardEdges(rows, boardId), walk);
      BoardSuccessors(rows, boardId, start);
    }
  }

  lemma {:induction false} ReplaceKeepsAcyclic(tasks: Tasks, rows: Rows, boardId: Id, taskId: Id, requested: seq<Id>)
    requires Consistent(tasks, rows) && AllAcyclic(rows)
    requires taskId in BoardTasks(tasks, boardId)
    requires Validated(tasks, rows, boardId, taskId, requested).Success?
    ensures var deps := Validated(tasks, rows, boardId, taskId, requested).value;
      Consistent(tasks, Replaced(rows, boardId, taskId, deps)) && AllAcyclic(Replaced(rows, boardId, taskId, deps))
  {
    var deps := Validated(tasks, rows, boardId, taskId, requested).value;
    var rows' := Replaced(rows, boardId, taskId, deps);
    if requested == [] {
      FewerRowsStayAcyclic(rows', rows);
      return;
    }
    assert forall d | d in deps :: d in BoardTasks(tasks, boardId);
    assert Consistent(tasks, rows');
    forall b ensures Acyclic(BoardEdges(rows', b)) {
      if b == boardId {
        OverlayIsStored(rows, boardId, taskId, deps);
        SameCycles(Overlay(rows, boardId, taskId, deps), BoardEdges(rows', boardId));
        CyclesAreOnTheBoard(tasks, rows', boardId);
      } else {
        assert BoardEdges(rows', b) == BoardEdges(rows, b) by {
          assert forall r: TaskDependency | r.boardId == b :: r in rows' <==> r in rows;
          assert forall t :: DependsOn(rows', b, t) == DependsOn(rows, b, t);
        }
      }
    }
  }

  /** The check rejects an edit for a cycle exactly when storing that edit would create one. */
  lemma {:induction false} CycleRejectedExactly(tasks: Tasks, rows: Rows, boardId: Id, taskId: Id, requested: seq<Id>)
    requires Consistent(tasks, rows) && taskId in BoardTasks(tasks, boardId)
    requires taskId !in requested && requested != []
    requires forall d | d in requested :: d in BoardTasks(tasks, boardId)
    ensures Validated(tasks, rows, boardId, taskId, requested) == Failure(DependencyCycle)
       <==> !Acyclic(BoardEdges(Replaced(rows, boardId, taskId, Deduped(requested)), boardId))
  {
    var deps := Deduped(requested);
    var checked := Overlay(rows, boardId, taskId, deps);
    var rows' := Replaced(rows, boardId, taskId, deps);
    var stored := BoardEdges(rows', boardId);
    OverlayIsStored(rows, boardId, taskId, deps);
    SameCycles(checked, stored);
    CyclesAreOnTheBoard(tasks, rows', boardId);
  }

  /** A new task has no dependents yet, so no cycle can go through it. */
  lemma {:induction false} CreateKeepsAcyclic(tasks: Tasks, rows: Rows, boardId: Id, taskId: Id, task: Task,
    requested: seq<Id>)
    requires Consistent(tasks, rows) && AllAcyclic(rows)
    requires taskId !in tasks && task.boardId == boardId
    requires Validated(tasks, rows, boardId, taskId, requested).Success?
    ensures var deps := Validated(tasks, rows, boardId, taskId, requested).value;
      && Consistent(tasks[taskId := task], rows + RowsFor(boardId, taskId, deps))
      && AllAcyclic(rows + RowsFor(boardId, taskId, deps))
  {
    var deps := Validated(tasks, rows, boardId, taskId, requested).value;
    var rows' := rows + RowsFor(boardId, taskId, deps);
    assert forall d | d in deps :: d in requested && d in BoardTasks(tasks, boardId);
    assert Consistent(tasks[taskId := task], rows');
    forall b, start | ReachesCycle(BoardEdges(rows', b), start) ensures false {
      var walk :| IsLasso(BoardEdges(rows', b), walk) && walk[0] == start;
      forall i | 0 < i < |walk| ensures walk[i] != taskId {
        assert walk[i - 1 + 1] in Successors(BoardEdges(rows', b), walk[i - 1]);
        BoardSuccessors(rows', b, walk[i - 1]);
      }
      var avoiding := walk;
      if walk[0] == taskId {
        LassoTail(BoardEdges(rows', b), walk);
        avoiding := walk[1..];
      }
      forall i | 0 <= i < |avoiding| - 1
        ensures Successors(BoardEdges(rows', b), avoiding[i]) <= Successors(BoardEdges(rows, b), avoiding[i])
      {
        BoardSuccessors(rows', b, avoiding[i]);
        BoardSuccessors(rows, b, avoiding[i]);
      }
      LassoTransfer(BoardEdges(rows', b), BoardEdges(rows, b), avoiding);
      assert ReachesCycle(BoardEdges(rows, b), avoiding[0]);
    }
  }

  // ---------------------------------------------------------------------------
  // Progress: an acyclic board is never stuck
  // ---------------------------------------------------------------------------

  function Unfinished(tasks: Tasks, boardId: Id): set<Id> {
    set t | t in BoardTasks(tasks, boardId) && tasks[t].status != Done
  }

  /** If every unfinished task waits for another one, waiting chains grow without bound. */
  lemma {:induction false} WaitingChain(tasks: Tasks, rows: Rows, boardId: Id, start: Id, n: nat)
    returns (walk: seq<Id>)
    requires Consistent(tasks, rows) && AllAcyclic(rows)
    requires start in Unfinished(tasks, boardId)
    requires forall t | t in Unfinished(tasks, boardId) :: BlockedBy(tasks, boardId, DependsOn(rows, boardId, t)) != {}
    ensures |walk| == n + 1 && IsWalk(BoardEdges(rows, boardId), walk)
    ensures forall i :: 0 <= i < |walk| ==> walk[i] in Unfinished(tasks, boardId)
    ensures forall i, j :: 0 <= i < j < |walk| ==> walk[i] != walk[j]
  {
    if n == 0 {
      return [start];
    }
    var shorter := WaitingChain(tasks, rows, boardId, start, n - 1);
    var last := shorter[|shorter| - 1];
    var next :| next in BlockedBy(tasks, boardId, DependsOn(rows, boardId, last));
    BoardSuccessors(rows, boardId, last);
    walk := shorter + [next];
    if next in shorter {
      var k :| 0 <= k < |shorter| && shorter[k] == next;
      assert walk[k] == walk[|walk| - 1];
      LassoReaches(BoardEdges(rows, boardId), walk);
    }
  }

  lemma {:induction false} SomeTaskCanProceed(tasks: Tasks, rows: Rows, boardId: Id)
    requires Consistent(tasks, rows) && AllAcyclic(rows)
    requires Unfinished(tasks, boardId) != {}
    ensures exists t | t in Unfinished(tasks, boardId) :: BlockedBy(tasks, boardId, DependsOn(rows, boardId, t)) == {}
  {
    if forall t | t in Unfinished(tasks, boardId) :: BlockedBy(tasks, boardId, DependsOn(rows, boardId, t)) != {} {
      var start :| start in Unfinished(tasks, boardId);
      var walk := WaitingChain(tasks, rows, boardId, start, |Unfinished(tasks, boardId)|);
      DistinctFit(walk, Unfinished(tasks, boardId));
    }
  }
}
