/** Which tasks an approval covers, which approvals conflict, and how many cover a task.
    Models backend/app/services/approval_task_links.py and the request handlers of backend/app/api/approvals.py
    taken one request at a time. */
module ApprovalTaskLinks {
  import opened Models
  import TaskDependencies

  /** The approvals table, and the link rows of each approval in insertion order. */
  datatype Tables = Tables(approvals: map<Id, Approval>, links: map<Id, seq<Id>>)

  function LinksOf(db: Tables, approval: Id): seq<Id> {
    if approval in db.links then db.links[approval] else []
  }

  /** The tasks an approval is about: its links, or its own task_id when it predates the link table. */
  function Coverage(db: Tables, approval: Id): set<Id> {
    if approval !in db.approvals then {}
    else if LinksOf(db, approval) != [] then set t | t in LinksOf(db, approval)
    else match db.approvals[approval].taskId
      case None => {}
      case Some(t) => {t}
  }

  ghost predicate WellFormed(db: Tables) {
    && db.links.Keys <= db.approvals.Keys
    && (forall a | a in db.links :: NoDuplicates(db.links[a]))
    && (forall a | a in db.links && db.links[a] != [] ::
          db.approvals[a].taskId.Some? && db.approvals[a].taskId.value in db.links[a])
  }

  predicate IsPending(db: Tables, boardId: Id, approval: Id, exclude: Option<Id>) {
    && approval in db.approvals
    && db.approvals[approval].boardId == boardId
    && db.approvals[approval].status == Pending
    && exclude != Some(approval)
  }

  ghost predicate CoveredByPending(db: Tables, boardId: Id, task: Id, exclude: Option<Id>) {
    exists a: Id :: IsPending(db, boardId, a, exclude) && task in Coverage(db, a)
  }

  /** Each task has at most one pending approval on a board. */
  ghost predicate OnePendingPerTask(db: Tables) {
    forall b, a1, a2 | IsPending(db, b, a1, None) && IsPending(db, b, a2, None) && a1 != a2 ::
      Coverage(db, a1) !! Coverage(db, a2)
  }

  /** The approval names the task: by a link row, or by its own task_id if it has no link rows. */
  predicate Names(db: Tables, a: Id, t: Id) {
    || (a in db.links && t in db.links[a])
    || ((a in db.links ==> db.links[a] == []) && a in db.approvals && db.approvals[a].taskId == Some(t))
  }

  /** A pending approval of the board names the task. */
  predicate PendingFor(db: Tables, boardId: Id, a: Id, t: Id) {
    && a in db.approvals && db.approvals[a].boardId == boardId && db.approvals[a].status == Pending
    && Names(db, a, t)
  }

  lemma {:induction false} PendingForIs(db: Tables, boardId: Id, a: Id, t: Id, exclude: Option<Id>)
    ensures PendingFor(db, boardId, a, t) && exclude != Some(a) <==>
      IsPending(db, boardId, a, exclude) && t in Coverage(db, a)
    ensures a in db.approvals ==> (Names(db, a, t) <==> t in Coverage(db, a))
  {
  }

  lemma {:induction false} CoveredIsNamed(db: Tables, boardId: Id, t: Id, exclude: Option<Id>)
    ensures CoveredByPending(db, boardId, t, exclude) <==>
      exists a: Id :: PendingFor(db, boardId, a, t) && exclude != Some(a)
  {
    if CoveredByPending(db, boardId, t, exclude) {
      var a: Id :| IsPending(db, boardId, a, exclude) && t in Coverage(db, a);
      PendingForIs(db, boardId, a, t, exclude);
    }
    forall a: Id | PendingFor(db, boardId, a, t) && exclude != Some(a)
      ensures IsPending(db, boardId, a, exclude) && t in Coverage(db, a)
    {
      PendingForIs(db, boardId, a, t, exclude);
    }
  }

  // ---------------------------------------------------------------------------
  // Conflicts
  // ---------------------------------------------------------------------------

  /** ORDER BY created_at, id. */
  predicate Earlier(db: Tables, a: Id, b: Id)
    requires a in db.approvals && b in db.approvals
  {
    || db.approvals[a].createdAt < db.approvals[b].createdAt
    || (db.approvals[a].createdAt == db.approvals[b].createdAt && a <= b)
  }

  method EarliestOf(db: Tables, ids: set<Id>) returns (first: Id)
    requires ids != {} && ids <= db.approvals.Keys
    ensures first in ids && forall a | a in ids :: Earlier(db, first, a)
  {
    first :| first in ids;
    var left := ids - {first};
    while left != {}
      invariant first in ids && left <= ids
      invariant forall a | a in ids && a !in left :: Earlier(db, first, a)
      decreases left
    {
      var a :| a in left;
      if !Earlier(db, first, a) {
        first := a;
      }
      left := left - {a};
    }
  }

  datatype Row = Row(task: Id, approval: Id)

  predicate IsLinked(db: Tables, approval: Id) {
    LinksOf(db, approval) != []
  }

  /** Linked approvals come before legacy ones; within each kind the earliest comes first. */
  predicate Precedes(db: Tables, a: Id, b: Id)
    requires a in db.approvals && b in db.approvals
  {
    if IsLinked(db, a) == IsLinked(db, b) then Earlier(db, a, b) else IsLinked(db, a)
  }

  /** The rows a conflict query returns for approvals that are `linked`, in its ORDER BY order. */
  ghost predicate IsQueryResult(
    db: Tables, boardId: Id, tasks: set<Id>, exclude: Option<Id>, linked: bool, rows: seq<Row>)
  {
    && (forall i :: 0 <= i < |rows| ==>
          && IsPending(db, boardId, rows[i].approval, exclude) && IsLinked(db, rows[i].approval) == linked
          && rows[i].task in tasks && rows[i].task in Coverage(db, rows[i].approval))
    && (forall a, t | IsPending(db, boardId, a, exclude) && IsLinked(db, a) == linked
      && t in tasks && t in Coverage(db, a) ::
          Row(t, a) in rows)
    && (forall i, j :: 0 <= i < j < |rows| ==> Earlier(db, rows[i].approval, rows[j].approval))
  }

  function RowsOf(approval: Id, links: seq<Id>, tasks: set<Id>): (rows: seq<Row>)
    ensures forall row :: row in rows <==> row.approval == approval && row.task in links && row.task in tasks
  {
    if links == [] then []
    else
      (if links[0] in tasks then [Row(links[0], approval)] else []) + RowsOf(approval, links[1..], tasks)
  }

  function RowsOfApproval(db: Tables, approval: Id, tasks: set<Id>): (rows: seq<Row>)
    requires approval in db.approvals
    ensures forall row :: row in rows <==>
      row.approval == approval && row.task in tasks && row.task in Coverage(db, approval)
    ensures forall i :: 0 <= i < |rows| ==> rows[i] in rows
  {
    if IsLinked(db, approval) then RowsOf(approval, LinksOf(db, approval), tasks)
    else match db.approvals[approval].taskId
      case None => []
      case Some(t) => if t in tasks then [Row(t, approval)] else []
  }

  /** One statement of `pending_approval_conflicts_by_task`. */
  method RunConflictQuery(db: Tables, boardId: Id, tasks: set<Id>, exclude: Option<Id>, linked: bool)
    returns (rows: seq<Row>)
    ensures IsQueryResult(db, boardId, tasks, exclude, linked, rows)
  {
    rows := [];
    var todo := set a | a in db.approvals && IsPending(db, boardId, a, exclude) && IsLinked(db, a) == linked;
    ghost var all := todo;
    while todo != {}
      invariant todo <= all
      invariant forall i :: 0 <= i < |rows| ==>
        rows[i].approval in all - todo && rows[i].task in tasks && rows[i].task in Coverage(db, rows[i].approval)
      invariant forall a, t | a in all - todo && t in tasks && t in Coverage(db, a) :: Row(t, a) in rows
      invariant forall i, j :: 0 <= i < j < |rows| ==> Earlier(db, rows[i].approval, rows[j].approval)
      invariant forall i, a | 0 <= i < |rows| && a in todo :: Earlier(db, rows[i].approval, a)
      decreases todo
    {
      var a := EarliestOf(db, todo);
      todo := todo - {a};
      rows := rows + RowsOfApproval(db, a, tasks);
    }
  }

  ghost predicate IsFirstConflict(db: Tables, boardId: Id, exclude: Option<Id>, task: Id, approval: Id) {
    && IsPending(db, boardId, approval, exclude) && task in Coverage(db, approval)
    && forall a | IsPending(db, boardId, a, exclude) && task in Coverage(db, a) :: Precedes(db, approval, a)
  }

  /** `setdefault` applied row by row. */
  function SetDefaults(conflicts: map<Id, Id>, rows: seq<Row>): map<Id, Id> {
    if rows == [] then conflicts
    else
      var before, last := SetDefaults(conflicts, rows[..|rows| - 1]), rows[|rows| - 1];
      if last.task in before then before else before[last.task := last.approval]
  }

  /** Row j is the first for task t. */
  ghost predicate IsFirstRow(rows: seq<Row>, j: int, t: Id) {
    0 <= j < |rows| && rows[j].task == t && forall k :: 0 <= k < j ==> rows[k].task != t
  }

  lemma {:induction false} SetDefaultsKeepsOld(conflicts: map<Id, Id>, rows: seq<Row>, t: Id)
    requires t in conflicts
    ensures t in SetDefaults(conflicts, rows) && SetDefaults(conflicts, rows)[t] == conflicts[t]
    decreases |rows|
  {
    if rows != [] {
      SetDefaultsKeepsOld(conflicts, rows[..|rows| - 1], t);
    }
  }

  /** A new key takes its value from the first row that has it. */
  lemma {:induction false} SetDefaultsTakesFirst(conflicts: map<Id, Id>, rows: seq<Row>, t: Id)
    requires t !in conflicts && t in SetDefaults(conflicts, rows)
    ensures exists j :: IsFirstRow(rows, j, t) && rows[j].approval == SetDefaults(conflicts, rows)[t]
    decreases |rows|
  {
    var last := |rows| - 1;
    if t in SetDefaults(conflicts, rows[..last]) {
      SetDefaultsTakesFirst(conflicts, rows[..last], t);
      var j :| IsFirstRow(rows[..last], j, t) && rows[j].approval == SetDefaults(conflicts, rows[..last])[t];
      assert IsFirstRow(rows, j, t);
    } else {
      forall k | 0 <= k < last ensures rows[k].task != t {
        SetDefaultsHasAll(conflicts, rows[..last], k);
      }
      assert IsFirstRow(rows, last, t);
    }
  }

  lemma {:induction false} SetDefaultsHasAll(conflicts: map<Id, Id>, rows: seq<Row>, k: nat)
    requires k < |rows|
    ensures rows[k].task in SetDefaults(conflicts, rows)
    decreases |rows|
  {
    if k < |rows| - 1 {
      SetDefaultsHasAll(conflicts, rows[..|rows| - 1], k);
    }
  }

  lemma {:induction false} RowFor(
    db: Tables, boardId: Id, tasks: set<Id>, exclude: Option<Id>, linked: bool, rows: seq<Row>, t: Id, a: Id)
  returns (m: nat)
    requires IsQueryResult(db, boardId, tasks, exclude, linked, rows)
    requires t in tasks && IsPending(db, boardId, a, exclude) && t in Coverage(db, a) && IsLinked(db, a) == linked
    ensures m < |rows| && rows[m] == Row(t, a)
  {
    assert Row(t, a) in rows;
    m :| 0 <= m < |rows| && rows[m] == Row(t, a);
  }

  /** Both queries merged: exactly the covered tasks, each with its first conflicting approval. */
  lemma {:induction false} MergedConflicts(
    db: Tables, boardId: Id, tasks: set<Id>, exclude: Option<Id>, linkedRows: seq<Row>, legacyRows: seq<Row>, t: Id)
    requires IsQueryResult(db, boardId, tasks, exclude, true, linkedRows)
    requires IsQueryResult(db, boardId, tasks, exclude, false, legacyRows)
    ensures var conflicts := SetDefaults(SetDefaults(map[], linkedRows), legacyRows);
      && (t in conflicts <==> t in tasks && CoveredByPending(db, boardId, t, exclude))
      && (t in conflicts ==> IsFirstConflict(db, boardId, exclude, t, conflicts[t]))
  {
    var fromLinks := SetDefaults(map[], linkedRows);
    var conflicts := SetDefaults(fromLinks, legacyRows);
    if t in fromLinks {
      SetDefaultsKeepsOld(fromLinks, legacyRows, t);
      SetDefaultsTakesFirst(map[], linkedRows, t);
      var j :| IsFirstRow(linkedRows, j, t) && linkedRows[j].approval == fromLinks[t];
      forall a | IsPending(db, boardId, a, exclude) && t in Coverage(db, a) ensures Precedes(db, conflicts[t], a) {
        assert IsLinked(db, a) ==> Row(t, a) in linkedRows;
      }
    } else if t in conflicts {
      SetDefaultsTakesFirst(fromLinks, legacyRows, t);
      var j :| IsFirstRow(legacyRows, j, t) && legacyRows[j].approval == conflicts[t];
      forall a | IsPending(db, boardId, a, exclude) && t in Coverage(db, a) ensures Precedes(db, conflicts[t], a) {
        if IsLinked(db, a) {
          NotMissed(db, boardId, tasks, exclude, linkedRows, map[], t, a);
        }
      }
    } else if t in tasks && CoveredByPending(db, boardId, t, exclude) {
      var a: Id :| IsPending(db, boardId, a, exclude) && t in Coverage(db, a);
      if IsLinked(db, a) {
        NotMissed(db, boardId, tasks, exclude, linkedRows, map[], t, a);
      } else {
        NotMissed(db, boardId, tasks, exclude, legacyRows, fromLinks, t, a);
      }
    }
  }

  /** A task with a conflicting approval gets a key from the query for that kind of approval. */
  lemma {:induction false} NotMissed(
    db: Tables, boardId: Id, tasks: set<Id>, exclude: Option<Id>, rows: seq<Row>, conflicts: map<Id, Id>, t: Id, a: Id)
    requires IsQueryResult(db, boardId, tasks, exclude, IsLinked(db, a), rows)
    requires t in tasks && IsPending(db, boardId, a, exclude) && t in Coverage(db, a)
    ensures t in SetDefaults(conflicts, rows)
  {
    var m := RowFor(db, boardId, tasks, exclude, IsLinked(db, a), rows, t, a);
    SetDefaultsHasAll(conflicts, rows, m);
  }

  /** Approval a is reported rather than b: with link rows before without, then the older, then the smaller id. */
  predicate Reported(db: Tables, a: Id, b: Id)
    requires a in db.approvals && b in db.approvals
  {
    var linkedA, linkedB := a in db.links && |db.links[a]| > 0, b in db.links && |db.links[b]| > 0;
    if linkedA && !linkedB then true
    else if linkedB && !linkedA then false
    else if db.approvals[a].createdAt != db.approvals[b].createdAt then
      db.approvals[a].createdAt < db.approvals[b].createdAt
    else a < b
  }

  ghost predicate IsReported(db: Tables, boardId: Id, exclude: Option<Id>, t: Id, a: Id) {
    && PendingFor(db, boardId, a, t) && exclude != Some(a)
    && forall b: Id | PendingFor(db, boardId, b, t) && exclude != Some(b) && b != a :: Reported(db, a, b)
  }

  lemma {:induction false} ConflictsAreReported(
    db: Tables, boardId: Id, taskIds: seq<Id>, exclude: Option<Id>, conflicts: map<Id, Id>)
    requires forall t :: t in conflicts <==> t in taskIds && CoveredByPending(db, boardId, t, exclude)
    requires forall t | t in conflicts :: IsFirstConflict(db, boardId, exclude, t, conflicts[t])
    ensures forall t :: t in conflicts <==>
      t in taskIds && exists a: Id :: PendingFor(db, boardId, a, t) && exclude != Some(a)
    ensures forall t | t in conflicts :: IsReported(db, boardId, exclude, t, conflicts[t])
  {
    hide PendingFor, CoveredByPending, IsFirstConflict, IsReported;
    forall t ensures CoveredByPending(db, boardId, t, exclude) <==>
      exists a: Id :: PendingFor(db, boardId, a, t) && exclude != Some(a)
    {
      CoveredIsNamed(db, boardId, t, exclude);
    }
    forall t | t in conflicts ensures IsReported(db, boardId, exclude, t, conflicts[t]) {
      FirstIsReported(db, boardId, exclude, t, conflicts[t]);
    }
  }

  lemma {:induction false} FirstIsReported(db: Tables, boardId: Id, exclude: Option<Id>, t: Id, a: Id)
    requires IsFirstConflict(db, boardId, exclude, t, a)
    ensures IsReported(db, boardId, exclude, t, a)
  {
    PendingForIs(db, boardId, a, t, exclude);
    forall b: Id | PendingFor(db, boardId, b, t) && exclude != Some(b) && b != a ensures Reported(db, a, b) {
      PendingForIs(db, boardId, b, t, exclude);
    }
  }

  method PendingApprovalConflictsByTask(db: Tables, boardId: Id, taskIds: seq<Id>, exclude: Option<Id>)
    returns (conflicts: map<Id, Id>)
    ensures forall t :: t in conflicts <==>
      t in taskIds && exists a: Id :: PendingFor(db, boardId, a, t) && exclude != Some(a)
    ensures forall t | t in conflicts :: IsReported(db, boardId, exclude, t, conflicts[t])
    ensures forall t :: t in conflicts <==> t in taskIds && CoveredByPending(db, boardId, t, exclude)
    ensures forall t | t in conflicts :: IsFirstConflict(db, boardId, exclude, t, conflicts[t])
  {
    var tasks := set t | t in taskIds;
    conflicts := map[];
    if tasks == {} {
      assert forall t | t in taskIds :: t in tasks;
      ConflictsAreReported(db, boardId, taskIds, exclude, conflicts);
      return;
    }
    var linkedRows := RunConflictQuery(db, boardId, tasks, exclude, true);
    for i := 0 to |linkedRows|
      invariant conflicts == SetDefaults(map[], linkedRows[..i])
    {
      assert linkedRows[..i + 1][..i] == linkedRows[..i];
      if linkedRows[i].task !in conflicts {
        conflicts := conflicts[linkedRows[i].task := linkedRows[i].approval];
      }
    }
    assert linkedRows[..|linkedRows|] == linkedRows;
    var legacyRows := RunConflictQuery(db, boardId, tasks, exclude, false);
    for i := 0 to |legacyRows|
      invariant conflicts == SetDefaults(SetDefaults(map[], linkedRows), legacyRows[..i])
    {
      assert legacyRows[..i + 1][..i] == legacyRows[..i];
      if legacyRows[i].task !in conflicts {
        conflicts := conflicts[legacyRows[i].task := legacyRows[i].approval];
      }
    }
    assert legacyRows[..|legacyRows|] == legacyRows;
    forall t ensures t in conflicts <==> t in taskIds && CoveredByPending(db, boardId, t, exclude)
      ensures t in conflicts ==> IsFirstConflict(db, boardId, exclude, t, conflicts[t])
    {
      MergedConflicts(db, boardId, tasks, exclude, linkedRows, legacyRows, t);
    }
    ConflictsAreReported(db, boardId, taskIds, exclude, conflicts);
  }

  // ---------------------------------------------------------------------------
  // Counts
  // ---------------------------------------------------------------------------

  datatype Counts = Counts(total: nat, pending: nat)

  function Covering(db: Tables, boardId: Id, task: Id): set<Id> {
    set a | a in db.approvals && db.approvals[a].boardId == boardId && task in Coverage(db, a)
  }

  function LinkedCovering(db: Tables, boardId: Id, task: Id): set<Id> {
    set a | a in db.approvals && db.approvals[a].boardId == boardId && task in LinksOf(db, a)
  }

  function LegacyCovering(db: Tables, boardId: Id, task: Id): set<Id> {
    set a | a in db.approvals && db.approvals[a].boardId == boardId && !IsLinked(db, a)
            && db.approvals[a].taskId == Some(task)
  }

  function PendingAmong(db: Tables, ids: set<Id>): set<Id> {
    set a | a in ids && a in db.approvals && db.approvals[a].status == Pending
  }

  function CountsOf(db: Tables, ids: set<Id>): Counts {
    Counts(|ids|, |PendingAmong(db, ids)|)
  }

  predicate InFilter(taskIds: Option<set<Id>>, task: Id) {
    taskIds == None || task in taskIds.value
  }

  /** The tasks that link rows, or unlinked approvals, of the board mention. */
  function LinkedTasks(db: Tables, boardId: Id): set<Id> {
    set a, t | a in db.approvals && db.approvals[a].boardId == boardId && t in LinksOf(db, a) :: t
  }

  function LegacyTasks(db: Tables, boardId: Id): set<Id> {
    set a | a in db.approvals && db.approvals[a].boardId == boardId && !IsLinked(db, a)
            && db.approvals[a].taskId.Some? :: db.approvals[a].taskId.value
  }

  lemma {:induction false} MentionedMeansCovered(db: Tables, boardId: Id, task: Id)
    ensures task in LinkedTasks(db, boardId) <==> LinkedCovering(db, boardId, task) != {}
    ensures task in LegacyTasks(db, boardId) <==> LegacyCovering(db, boardId, task) != {}
  {
    if LinkedCovering(db, boardId, task) != {} {
      var a: Id :| a in LinkedCovering(db, boardId, task);
      assert a in db.approvals && task in LinksOf(db, a);
    }
    if task in LinkedTasks(db, boardId) {
      var a: Id :| a in db.approvals && db.approvals[a].boardId == boardId && task in LinksOf(db, a);
      assert a in LinkedCovering(db, boardId, task);
    }
    if LegacyCovering(db, boardId, task) != {} {
      var a: Id :| a in LegacyCovering(db, boardId, task);
      assert db.approvals[a].taskId.value == task;
    }
    if task in LegacyTasks(db, boardId) {
      var a: Id :| a in db.approvals && db.approvals[a].boardId == boardId && !IsLinked(db, a)
        && db.approvals[a].taskId == Some(task);
      assert a in LegacyCovering(db, boardId, task);
    }
  }

  /** The approvals that cover a task fall into two groups: by link, and by their own task id. */
  lemma {:induction false} CoveringSplits(db: Tables, boardId: Id, task: Id)
    ensures Covering(db, boardId, task) == LinkedCovering(db, boardId, task) + LegacyCovering(db, boardId, task)
    ensures LinkedCovering(db, boardId, task) !! LegacyCovering(db, boardId, task)
  {
    var all, linked, legacy :=
      Covering(db, boardId, task), LinkedCovering(db, boardId, task), LegacyCovering(db, boardId, task);
    forall a | a in db.approvals
      ensures a in all <==> a in linked || a in legacy
      ensures !(a in linked && a in legacy)
    {
      CoversOneWay(db, a, task);
    }
  }

  /** An approval covers a task through its links or through its own task_id, never both. */
  lemma {:induction false} CoversOneWay(db: Tables, a: Id, task: Id)
    requires a in db.approvals
    ensures task in Coverage(db, a) <==>
      task in LinksOf(db, a) || (!IsLinked(db, a) && db.approvals[a].taskId == Some(task))
    ensures task in LinksOf(db, a) ==> IsLinked(db, a)
  {
  }

  lemma {:induction false} PendingAmongUnion(db: Tables, a: set<Id>, b: set<Id>)
    requires a !! b
    ensures |PendingAmong(db, a + b)| == |PendingAmong(db, a)| + |PendingAmong(db, b)|
  {
    assert PendingAmong(db, a + b) == PendingAmong(db, a) + PendingAmong(db, b);
  }

  function CountOrZero(counts: map<Id, Counts>, t: Id): Counts {
    if t in counts then counts[t] else Counts(0, 0)
  }

  /** The loop that adds the legacy rows to the linked counts. */
  method AddLegacyCounts(linked: map<Id, Counts>, legacy: map<Id, Counts>) returns (counts: map<Id, Counts>)
    ensures counts.Keys == linked.Keys + legacy.Keys
    ensures forall t | t in counts :: counts[t] == Sum(CountOrZero(linked, t), CountOrZero(legacy, t))
  {
    counts := linked;
    var todo := legacy.Keys;
    while todo != {}
      invariant todo <= legacy.Keys
      invariant counts.Keys == linked.Keys + (legacy.Keys - todo)
      invariant forall t | t in linked && (t !in legacy || t in todo) :: counts[t] == linked[t]
      invariant forall t | t in legacy && t !in todo :: counts[t] == Counts(
        CountOrZero(linked, t).total + legacy[t].total, CountOrZero(linked, t).pending + legacy[t].pending)
      decreases todo
    {
      var t :| t in todo;
      todo := todo - {t};
      var previous := if t in counts then counts[t] else Counts(0, 0);
      counts := counts[t := Counts(previous.total + legacy[t].total, previous.pending + legacy[t].pending)];
    }
  }

  method TaskCountsForBoard(db: Tables, boardId: Id, taskIds: Option<set<Id>>) returns (counts: map<Id, Counts>)
    ensures forall t :: t in counts <==> InFilter(taskIds, t) && Covering(db, boardId, t) != {}
    ensures forall t | t in counts :: counts[t] == CountsOf(db, Covering(db, boardId, t))
    ensures forall t :: t in counts <==>
      (taskIds.Some? ==> t in taskIds.value) && exists a :: a in Naming(db, boardId, t, false)
    ensures forall t | t in counts ::
      counts[t].total == |Naming(db, boardId, t, false)| && counts[t].pending == |Naming(db, boardId, t, true)|
  {
    forall t ensures Covering(db, boardId, t) != {} <==> exists a :: a in Naming(db, boardId, t, false)
      ensures CountsOf(db, Covering(db, boardId, t))
        == Counts(|Naming(db, boardId, t, false)|, |Naming(db, boardId, t, true)|)
    {
      NamingIsCovering(db, boardId, t);
    }
    if taskIds == Some({}) {
      return map[];
    }
    var linked, legacy := LinkedCounts(db, boardId, taskIds), LegacyCounts(db, boardId, taskIds);
    counts := AddLegacyCounts(linked, legacy);
    forall t ensures t in counts <==> InFilter(taskIds, t) && Covering(db, boardId, t) != {}
      ensures t in counts ==> counts[t] == CountsOf(db, Covering(db, boardId, t))
    {
      CountsMatch(db, boardId, taskIds, t);
    }
  }

  /** The approvals of the board that name the task, or only the pending ones. */
  function Naming(db: Tables, boardId: Id, task: Id, onlyPending: bool): set<Id> {
    set a | a in db.approvals && db.approvals[a].boardId == boardId && Names(db, a, task)
            && (onlyPending ==> db.approvals[a].status == Pending)
  }

  lemma {:induction false} NamingIsCovering(db: Tables, boardId: Id, task: Id)
    ensures Naming(db, boardId, task, false) == Covering(db, boardId, task)
    ensures Naming(db, boardId, task, true) == PendingAmong(db, Covering(db, boardId, task))
    ensures Covering(db, boardId, task) != {} <==> exists a :: a in Naming(db, boardId, task, false)
  {
    forall a | a in db.approvals ensures Names(db, a, task) <==> task in Coverage(db, a) {
      PendingForIs(db, boardId, a, task, None);
    }
  }

  /** The grouped count over link rows. */
  function LinkedCounts(db: Tables, boardId: Id, taskIds: Option<set<Id>>): map<Id, Counts> {
    map t | t in LinkedTasks(db, boardId) && InFilter(taskIds, t) :: CountsOf(db, LinkedCovering(db, boardId, t))
  }

  /** The grouped count over approvals without link rows. */
  function LegacyCounts(db: Tables, boardId: Id, taskIds: Option<set<Id>>): map<Id, Counts> {
    map t | t in LegacyTasks(db, boardId) && InFilter(taskIds, t) :: CountsOf(db, LegacyCovering(db, boardId, t))
  }

  function Sum(a: Counts, b: Counts): Counts { Counts(a.total + b.total, a.pending + b.pending) }

  lemma {:induction false} CountsMatch(db: Tables, boardId: Id, taskIds: Option<set<Id>>, task: Id)
    ensures var linked, legacy := LinkedCounts(db, boardId, taskIds), LegacyCounts(db, boardId, taskIds);
      && (task in linked || task in legacy <==> InFilter(taskIds, task) && Covering(db, boardId, task) != {})
      && (InFilter(taskIds, task) ==>
            Sum(CountOrZero(linked, task), CountOrZero(legacy, task)) == CountsOf(db, Covering(db, boardId, task)))
  {
    CountsOfTask(db, boardId, task);
    Listed(db, boardId, taskIds, task);
  }

  lemma {:induction false} Listed(db: Tables, boardId: Id, taskIds: Option<set<Id>>, task: Id)
    ensures task in LinkedCounts(db, boardId, taskIds) <==> InFilter(taskIds, task) && task in LinkedTasks(db, boardId)
    ensures task in LegacyCounts(db, boardId, taskIds) <==> InFilter(taskIds, task) && task in LegacyTasks(db, boardId)
    ensures InFilter(taskIds, task) ==>
      && CountOrZero(LinkedCounts(db, boardId, taskIds), task)
         == CountsIf(db, task in LinkedTasks(db, boardId), LinkedCovering(db, boardId, task))
      && CountOrZero(LegacyCounts(db, boardId, taskIds), task)
         == CountsIf(db, task in LegacyTasks(db, boardId), LegacyCovering(db, boardId, task))
  {
  }

  function CountsIf(db: Tables, listed: bool, ids: set<Id>): Counts {
    if listed then CountsOf(db, ids) else Counts(0, 0)
  }

  lemma {:induction false} CountsOfTask(db: Tables, boardId: Id, task: Id)
    ensures Covering(db, boardId, task) != {} <==> task in LinkedTasks(db, boardId) || task in LegacyTasks(db, boardId)
    ensures CountsOf(db, Covering(db, boardId, task)) == Sum(
      CountsIf(db, task in LinkedTasks(db, boardId), LinkedCovering(db, boardId, task)),
      CountsIf(db, task in LegacyTasks(db, boardId), LegacyCovering(db, boardId, task)))
  {
    hide Covering, LinkedCovering, LegacyCovering, LinkedTasks, LegacyTasks, CountsOf, CountsIf;
    var linked, legacy := LinkedCovering(db, boardId, task), LegacyCovering(db, boardId, task);
    CoveringSplits(db, boardId, task);
    MentionedMeansCovered(db, boardId, task);
    CountsAdd(db, boardId, task);
    CountsIfAny(db, task in LinkedTasks(db, boardId), linked);
    CountsIfAny(db, task in LegacyTasks(db, boardId), legacy);
  }

  /** A task's counts are the linked ones plus the legacy ones: no approval is in both groups. */
  lemma {:induction false} CountsAdd(db: Tables, boardId: Id, task: Id)
    ensures CountsOf(db, Covering(db, boardId, task)) ==
      Sum(CountsOf(db, LinkedCovering(db, boardId, task)), CountsOf(db, LegacyCovering(db, boardId, task)))
  {
    hide Covering, LinkedCovering, LegacyCovering, CountsOf;
    CoveringSplits(db, boardId, task);
    CountsSum(db, LinkedCovering(db, boardId, task), LegacyCovering(db, boardId, task));
  }

  /** No approval is counted twice when the groups have none in common. */
  lemma {:induction false} CountsSum(db: Tables, linked: set<Id>, legacy: set<Id>)
    requires linked !! legacy
    ensures CountsOf(db, linked + legacy) == Sum(CountsOf(db, linked), CountsOf(db, legacy))
  {
    hide PendingAmong;
    PendingAmongUnion(db, linked, legacy);
    SizesAdd(linked, legacy);
  }

  lemma {:induction false} SizesAdd(a: set<Id>, b: set<Id>)
    requires a !! b
    ensures |a + b| == |a| + |b|
  {
  }

  lemma {:induction false} CountsIfAny(db: Tables, listed: bool, ids: set<Id>)
    requires listed <==> ids != {}
    ensures CountsIf(db, listed, ids) == CountsOf(db, ids)
  {
    if ids == {} {
      assert PendingAmong(db, ids) == {};
    }
  }

  /** Under the uniqueness rule a pending count is one exactly for the tasks that conflict, and zero for the rest. */
  lemma {:induction false} PendingCountIsConflict(db: Tables, boardId: Id, task: Id)
    requires OnePendingPerTask(db)
    ensures CountsOf(db, Covering(db, boardId, task)).pending
         == if CoveredByPending(db, boardId, task, None) then 1 else 0
  {
    var pending := PendingAmong(db, Covering(db, boardId, task));
    if CoveredByPending(db, boardId, task, None) {
      var a: Id :| IsPending(db, boardId, a, None) && task in Coverage(db, a);
      assert pending == {a};
    } else {
      forall a ensures a !in pending {
        assert a in pending ==> IsPending(db, boardId, a, None);
      }
    }
  }

  // ---------------------------------------------------------------------------
  // Creating and updating approvals, one request at a time
  // ---------------------------------------------------------------------------

  datatype ApprovalError = NotFound | PendingConflict(conflicts: map<Id, Id>)

  /** `normalize_task_ids`; the task ids found in the payload arrive already extracted. */
  function NormalizeTaskIds(taskId: Option<Id>, taskIds: seq<Id>, payloadTaskIds: seq<Id>): seq<Id> {
    TaskDependencies.Deduped(taskIds + (if taskId.Some? then [taskId.value] else []) + payloadTaskIds)
  }

  ghost predicate AnyCovered(db: Tables, boardId: Id, tasks: set<Id>, exclude: Option<Id>) {
    exists t | t in tasks :: CoveredByPending(db, boardId, t, exclude)
  }

  function WithApproval(db: Tables, id: Id, boardId: Id, taskIds: seq<Id>, status: ApprovalStatus, now: Time): Tables {
    Tables(
      db.approvals[id := Approval(boardId, if taskIds == [] then None else Some(taskIds[0]), status, now)],
      db.links[id := taskIds])
  }

  function WithStatus(db: Tables, id: Id, status: ApprovalStatus): Tables
    requires id in db.approvals
  {
    db.(approvals := db.approvals[id := db.approvals[id].(status := status)])
  }

  /** The request names the task: in task_ids, as task_id or in the payload. */
  predicate IsRequested(taskId: Option<Id>, taskIds: seq<Id>, payloadTaskIds: seq<Id>, t: Id) {
    t in taskIds || taskId == Some(t) || t in payloadTaskIds
  }

  /** The task the request names first, which becomes the approval's own. */
  function FirstGiven(taskIds: seq<Id>, taskId: Option<Id>, payloadTaskIds: seq<Id>): Option<Id> {
    if taskIds != [] then Some(taskIds[0])
    else if taskId.Some? then taskId
    else if payloadTaskIds != [] then Some(payloadTaskIds[0])
    else None
  }

  /** Only the rows of the new approval have been added. */
  predicate IsCreated(before: Tables, after: Tables, id: Id) {
    && id in after.approvals && id in after.links
    && after.approvals == before.approvals[id := after.approvals[id]]
    && after.links == before.links[id := after.links[id]]
  }

  lemma {:induction false} NormalizedTasks(taskId: Option<Id>, taskIds: seq<Id>, payloadTaskIds: seq<Id>)
    ensures var tasks := NormalizeTaskIds(taskId, taskIds, payloadTaskIds);
      && FirstOccurrences(taskIds + (if taskId.Some? then [taskId.value] else []) + payloadTaskIds, tasks)
      && (forall t :: t in tasks <==> IsRequested(taskId, taskIds, payloadTaskIds, t))
      && FirstGiven(taskIds, taskId, payloadTaskIds) == if tasks == [] then None else Some(tasks[0])
  {
    var merged := taskIds + (if taskId.Some? then [taskId.value] else []) + payloadTaskIds;
    var tasks := TaskDependencies.Deduped(merged);
    TaskDependencies.DedupedIsFirst(merged);
    if merged != [] {
      assert merged[0] in tasks;
      assert IsFirstAt(merged, tasks, 0);
      var p :| 0 <= p < |merged| && merged[p] == tasks[0] && forall x :: x in merged[..p] <==> x in tasks[..0];
      if p > 0 {
        FirstInPrefix(merged, p);
      }
    }
  }

  lemma {:induction false} FirstInPrefix(s: seq<Id>, p: nat)
    requires 0 < p <= |s|
    ensures s[0] in s[..p]
  {
  }

  lemma {:induction false} RequestedConflict(
    db: Tables, boardId: Id, taskId: Option<Id>, taskIds: seq<Id>, payloadTaskIds: seq<Id>)
    ensures var tasks := NormalizeTaskIds(taskId, taskIds, payloadTaskIds);
      AnyCovered(db, boardId, (set t | t in tasks), None) <==>
        exists t: Id, a: Id :: IsRequested(taskId, taskIds, payloadTaskIds, t) && PendingFor(db, boardId, a, t)
  {
    var tasks := NormalizeTaskIds(taskId, taskIds, payloadTaskIds);
    NormalizedTasks(taskId, taskIds, payloadTaskIds);
    forall t ensures CoveredByPending(db, boardId, t, None) <==> exists a: Id :: PendingFor(db, boardId, a, t) {
      CoveredIsNamed(db, boardId, t, None);
    }
    forall t: Id, a: Id | IsRequested(taskId, taskIds, payloadTaskIds, t) && PendingFor(db, boardId, a, t)
      ensures AnyCovered(db, boardId, (set t | t in tasks), None)
    {
      assert CoveredByPending(db, boardId, t, None);
      assert t in set t | t in tasks;
    }
  }

  lemma {:induction false} ReopenConflict(db: Tables, boardId: Id, id: Id)
    ensures id in db.approvals ==>
      (AnyCovered(db, boardId, Coverage(db, id), Some(id)) <==>
        exists t: Id, a: Id :: Names(db, id, t) && PendingFor(db, boardId, a, t) && a != id)
  {
    hide CoveredByPending;
    forall t: Id
      ensures CoveredByPending(db, boardId, t, Some(id)) <==> exists a: Id :: PendingFor(db, boardId, a, t) && a != id
    {
      CoveredIsNamed(db, boardId, t, Some(id));
    }
    forall t: Id ensures id in db.approvals ==> (Names(db, id, t) <==> t in Coverage(db, id)) {
      PendingForIs(db, boardId, id, t, None);
    }
  }

  class ApprovalStore {
    var db: Tables

    constructor (db: Tables)
      ensures this.db == db
    {
      this.db := db;
    }

    /** `create_approval`; `id` is the identifier the new row gets. */
    method CreateApproval(
      id: Id, boardId: Id, taskId: Option<Id>, taskIds: seq<Id>, payloadTaskIds: seq<Id>,
      status: ApprovalStatus, now: Time)
      returns (r: Result<(), ApprovalError>)
      requires id !in db.approvals
      modifies this
      ensures var tasks := NormalizeTaskIds(taskId, taskIds, payloadTaskIds);
        && r.Failure? == (status == Pending && AnyCovered(old(db), boardId, (set t | t in tasks), None))
        && db == if r.Failure? then old(db) else WithApproval(old(db), id, boardId, tasks, status, now)
      ensures r.Failure? ==> r.error.PendingConflict?
      ensures r.Failure? <==>
        && status == Pending
        && exists t: Id, a: Id ::
             IsRequested(taskId, taskIds, payloadTaskIds, t) && PendingFor(old(db), boardId, a, t)
      ensures r.Success? ==> IsCreated(old(db), db, id)
      ensures r.Success? ==>
        db.approvals[id] == Approval(boardId, FirstGiven(taskIds, taskId, payloadTaskIds), status, now)
      ensures r.Success? ==>
        forall t: Id :: Names(db, id, t) <==> IsRequested(taskId, taskIds, payloadTaskIds, t)
      ensures r.Success? ==>
        FirstOccurrences(taskIds + (if taskId.Some? then [taskId.value] else []) + payloadTaskIds, db.links[id])
    {
      ghost var before := db;
      NormalizedTasks(taskId, taskIds, payloadTaskIds);
      RequestedConflict(before, boardId, taskId, taskIds, payloadTaskIds);
      var tasks := NormalizeTaskIds(taskId, taskIds, payloadTaskIds);
      if status == Pending {
        var conflicts := PendingApprovalConflictsByTask(db, boardId, tasks, None);
        if conflicts != map[] {
          var t :| t in conflicts;
          return Failure(PendingConflict(conflicts));
        }
        assert forall t | t in tasks :: t !in conflicts;
      }
      db := WithApproval(db, id, boardId, tasks, status, now);
      return Success(());
    }

    /** `update_approval`; `target` is absent when the payload sets no status. */
    method UpdateApproval(id: Id, boardId: Id, target: Option<ApprovalStatus>) returns (r: Result<(), ApprovalError>)
      modifies this
      ensures r == Failure(NotFound) <==> id !in old(db).approvals || old(db).approvals[id].boardId != boardId
      ensures r.Failure? && r.error.PendingConflict? <==>
        && r != Failure(NotFound)
        && target == Some(Pending) && old(db).approvals[id].status != Pending
        && AnyCovered(old(db), boardId, Coverage(old(db), id), Some(id))
      ensures db == if r.Failure? || target.None? then old(db) else WithStatus(old(db), id, target.value)
      ensures r.Failure? && r.error.PendingConflict? <==>
        && id in old(db).approvals && old(db).approvals[id].boardId == boardId
        && target == Some(Pending) && old(db).approvals[id].status != Pending
        && exists t: Id, a: Id :: Names(old(db), id, t) && PendingFor(old(db), boardId, a, t) && a != id
      ensures r.Success? && target.Some? ==>
        && db.links == old(db).links
        && db.approvals == old(db).approvals[id := old(db).approvals[id].(status := target.value)]
    {
      ReopenConflict(db, boardId, id);
      if id !in db.approvals || db.approvals[id].boardId != boardId {
        return Failure(NotFound);
      }
      if target.None? {
        return Success(());
      }
      if target.value == Pending && db.approvals[id].status != Pending {
        var tasks := LinksOf(db, id);
        if tasks == [] && db.approvals[id].taskId.Some? {
          tasks := [db.approvals[id].taskId.value];
        }
        assert forall t :: t in tasks <==> t in Coverage(db, id);
        var conflicts := PendingApprovalConflictsByTask(db, boardId, tasks, Some(id));
        if conflicts != map[] {
          var t :| t in conflicts;
          return Failure(PendingConflict(conflicts));
        }
        assert forall t | t in tasks :: t !in conflicts;
      }
      db := WithStatus(db, id, target.value);
      return Success(());
    }
  }

  lemma {:induction false} CreateKeepsOnePending(db: Tables, id: Id, boardId: Id,
    taskIds: seq<Id>, status: ApprovalStatus, now: Time)
    requires WellFormed(db) && OnePendingPerTask(db) && id !in db.approvals
    requires NoDuplicates(taskIds)
    requires status == Pending ==> !AnyCovered(db, boardId, (set t | t in taskIds), None)
    ensures WellFormed(WithApproval(db, id, boardId, taskIds, status, now))
    ensures OnePendingPerTask(WithApproval(db, id, boardId, taskIds, status, now))
  {
    var db' := WithApproval(db, id, boardId, taskIds, status, now);
    assert forall a | a != id :: Coverage(db', a) == Coverage(db, a);
    assert forall t :: t in Coverage(db', id) <==> t in taskIds;
    assert forall b, a | a != id :: IsPending(db', b, a, None) == IsPending(db, b, a, None);
    forall b, a1, a2 | IsPending(db', b, a1, None) && IsPending(db', b, a2, None) && a1 != a2
      ensures Coverage(db', a1) !! Coverage(db', a2)
    {
      if a1 != id && a2 != id {
        assert IsPending(db, b, a1, None) && IsPending(db, b, a2, None);
      }
    }
  }

  lemma {:induction false} UpdateKeepsOnePending(db: Tables, id: Id, status: ApprovalStatus)
    requires WellFormed(db) && OnePendingPerTask(db) && id in db.approvals
    requires status == Pending && db.approvals[id].status != Pending ==>
      !AnyCovered(db, db.approvals[id].boardId, Coverage(db, id), Some(id))
    ensures WellFormed(WithStatus(db, id, status))
    ensures OnePendingPerTask(WithStatus(db, id, status))
  {
    var db' := WithStatus(db, id, status);
    assert forall a :: Coverage(db', a) == Coverage(db, a);
    assert forall b, a | a != id :: IsPending(db', b, a, None) == IsPending(db, b, a, None);
    forall b, a1, a2 | IsPending(db', b, a1, None) && IsPending(db', b, a2, None) && a1 != a2
      ensures Coverage(db', a1) !! Coverage(db', a2)
    {
      if a1 == id || a2 == id {
        var other := if a1 == id then a2 else a1;
        if db.approvals[id].status == Pending {
          assert IsPending(db, b, id, None);
        } else {
          assert IsPending(db, b, other, Some(id));
        }
      }
    }
  }
}
