/** Deleting a task together with everything that refers to it.
    Models `delete_task_and_related_records` of backend/app/api/tasks.py. */
module TaskDeletion {
  import opened Models
  import opened ApprovalTaskLinks
  import TaskDependencies

  function Without(s: seq<Id>, x: Id): (r: seq<Id>)
    ensures forall y :: y in r <==> y in s && y != x
    ensures NoDuplicates(s) ==> NoDuplicates(r)
    ensures |r| <= |s| && (x !in s ==> r == s)
  {
    if s == [] then []
    else
      var rest, last := Without(s[..|s| - 1], x), s[|s| - 1];
      assert s == s[..|s| - 1] + [last];
      assert NoDuplicates(s) ==> last !in s[..|s| - 1];
      assert forall i | 0 <= i < |rest| :: rest[i] in rest;
      if last == x then rest else rest + [last]
  }

  /** One id is taken out of a list without duplicates, and the order of the others stays. */
  lemma {:induction false} WithoutOne(s: seq<Id>, k: nat)
    requires NoDuplicates(s) && k < |s|
    ensures Without(s, s[k]) == s[..k] + s[k + 1..]
  {
    var last := |s| - 1;
    if k == last {
      assert s[last] !in s[..last];
    } else {
      WithoutOne(s[..last], k);
      assert s[..last][..k] == s[..k] && s[..last][k + 1..] + [s[last]] == s[k + 1..];
    }
  }

  /** The link rows once those of the task are gone. */
  function WithoutLinks(db: Tables, task: Id): Tables {
    db.(links := map a | a in db.links :: Without(db.links[a], task))
  }

  /** The approvals of `primary` move to their first remaining link, or go when no link remains. */
  function Repointed(db: Tables, cut: Tables, primary: set<Id>): Tables {
    var approvals := map a | a in db.approvals && (a in primary ==> LinksOf(cut, a) != []) ::
      if a in primary then db.approvals[a].(taskId := Some(LinksOf(cut, a)[0])) else db.approvals[a];
    Tables(approvals, map a | a in cut.links && a in approvals :: cut.links[a])
  }

  function PrimaryApprovals(db: Tables, task: Id): set<Id> {
    set a | a in db.approvals && db.approvals[a].taskId == Some(task)
  }

  function AfterTaskDelete(db: Tables, task: Id): Tables {
    Repointed(db, WithoutLinks(db, task), PrimaryApprovals(db, task))
  }

  lemma {:induction false} RepointOne(db: Tables, cut: Tables, done: set<Id>, a: Id)
    requires a in db.approvals && a !in done && cut.links.Keys <= db.approvals.Keys
    ensures var now, next := Repointed(db, cut, done), Repointed(db, cut, done + {a});
      && LinksOf(now, a) == LinksOf(cut, a)
      && (LinksOf(cut, a) == [] ==> next == Tables(now.approvals - {a}, now.links - {a}))
      && (LinksOf(cut, a) != [] ==> a in now.approvals)
      && (LinksOf(cut, a) != [] ==>
        next == now.(approvals := now.approvals[a := now.approvals[a].(taskId := Some(LinksOf(cut, a)[0]))]))
  {
    var now, next := Repointed(db, cut, done), Repointed(db, cut, done + {a});
    if LinksOf(cut, a) == [] {
      assert next.approvals == now.approvals - {a};
      assert next.links == now.links - {a};
    } else {
      assert next.approvals == now.approvals[a := now.approvals[a].(taskId := Some(LinksOf(cut, a)[0]))];
      assert next.links == now.links;
    }
  }

  /** The rows of a table that do not refer to the task. */
  function NotAbout<T(==)>(references: map<Id, T>, task: T): map<Id, T> {
    map row | row in references && references[row] != task :: references[row]
  }

  /** Exactly the rows about the task are gone; the others are as they were. */
  ghost predicate LosesRowsAbout<T(!new)>(before: map<Id, T>, after: map<Id, T>, task: T) {
    && (forall row | row in before && before[row] != task :: row in after && after[row] == before[row])
    && (forall row | row in after :: row in before && before[row] != task)
  }

  /** The tables the deletion touches. The last four map row ids to the task they refer to. */
  class Database {
    var tasks: map<Id, Task>
    var dependencies: TaskDependencies.Rows
    var approvals: Tables
    var activityEvents: map<Id, Option<Id>>
    var fingerprints: map<Id, Id>
    var tagAssignments: map<Id, Id>
    var customFieldValues: map<Id, Id>

    constructor (tasks: map<Id, Task>, dependencies: TaskDependencies.Rows, approvals: Tables)
      ensures this.tasks == tasks && this.dependencies == dependencies && this.approvals == approvals
      ensures activityEvents == map[] && fingerprints == tagAssignments == customFieldValues == map[]
    {
      this.tasks, this.dependencies, this.approvals := tasks, dependencies, approvals;
      activityEvents, fingerprints, tagAssignments, customFieldValues := map[], map[], map[], map[];
    }

    method DeleteTaskAndRelatedRecords(task: Id)
      requires WellFormed(approvals)
      modifies this
      ensures tasks == old(tasks) - {task}
      ensures dependencies == TaskDependencies.WithoutTask(old(dependencies), task)
      ensures approvals == AfterTaskDelete(old(approvals), task)
      ensures activityEvents == NotAbout(old(activityEvents), Some(task))
      ensures fingerprints == NotAbout(old(fingerprints), task)
      ensures tagAssignments == NotAbout(old(tagAssignments), task)
      ensures customFieldValues == NotAbout(old(customFieldValues), task)
      ensures LosesRowsAbout(old(activityEvents), activityEvents, Some(task))
      ensures LosesRowsAbout(old(fingerprints), fingerprints, task)
      ensures LosesRowsAbout(old(tagAssignments), tagAssignments, task)
      ensures LosesRowsAbout(old(customFieldValues), customFieldValues, task)
      ensures forall r :: r in dependencies <==>
        r in old(dependencies) && r.taskId != task && r.dependsOnTaskId != task
    {
      activityEvents := NotAbout(activityEvents, Some(task));
      fingerprints := NotAbout(fingerprints, task);
      RepointApprovals(task, PrimaryApprovals(approvals, task));
      dependencies := set r | r in dependencies && !(r.taskId == task || r.dependsOnTaskId == task);
      tagAssignments := NotAbout(tagAssignments, task);
      customFieldValues := NotAbout(customFieldValues, task);
      tasks := tasks - {task};
    }

    /** The link rows go first, so the loop sees what each primary approval has left. */
    method RepointApprovals(task: Id, primary: set<Id>)
      requires WellFormed(approvals) && primary <= approvals.approvals.Keys
      modifies this`approvals
      ensures approvals == Repointed(old(approvals), WithoutLinks(old(approvals), task), primary)
    {
      ghost var before := approvals;
      approvals := WithoutLinks(approvals, task);
      ghost var cut := approvals;
      var todo := primary;
      assert approvals == Repointed(before, cut, primary - todo);
      while todo != {}
        invariant todo <= primary
        invariant approvals == Repointed(before, cut, primary - todo)
        decreases todo
      {
        var a :| a in todo;
        RepointOne(before, cut, primary - todo, a);
        assert primary - todo + {a} == primary - (todo - {a});
        todo := todo - {a};
        var remaining := LinksOf(approvals, a);
        if remaining != [] {
          approvals := approvals.(approvals :=
            approvals.approvals[a := approvals.approvals[a].(taskId := Some(remaining[0]))]);
        } else {
          approvals := Tables(approvals.approvals - {a}, approvals.links - {a});
        }
      }
      assert primary - todo == primary;
    }
  }

  // ---------------------------------------------------------------------------
  // What is left of the approvals
  // ---------------------------------------------------------------------------

  /** An approval loses exactly the deleted task from its coverage, and survives exactly when something is left or it
      never covered the task. */
  lemma {:induction false} DeleteCutsCoverage(db: Tables, task: Id, a: Id)
    requires WellFormed(db) && a in db.approvals
    ensures var db' := AfterTaskDelete(db, task);
      && (a in db'.approvals <==> Coverage(db, a) != {task})
      && (a in db'.approvals ==> Coverage(db', a) == Coverage(db, a) - {task})
      && (a in db'.approvals ==> db'.approvals[a] == db.approvals[a].(taskId := db'.approvals[a].taskId))
      && (a in db'.approvals && db.approvals[a].taskId != Some(task) ==> db'.approvals[a] == db.approvals[a])
      && (a in db'.approvals && db.approvals[a].taskId == Some(task) ==>
            LinksOf(db', a) != [] && db'.approvals[a].taskId == Some(LinksOf(db', a)[0]))
  {
    var db' := AfterTaskDelete(db, task);
    var cut := WithoutLinks(db, task);
    if LinksOf(db, a) == [] {
      assert LinksOf(cut, a) == [];
    } else {
      var links := db.links[a];
      assert links == LinksOf(db, a) && LinksOf(cut, a) == Without(links, task);
      if Without(links, task) == [] {
        assert forall t | t in links :: t == task;
        assert db.approvals[a].taskId == Some(task);
        assert Coverage(db, a) == {task};
      } else {
        var other := Without(links, task)[0];
        assert other in links && other != task;
        assert other in Coverage(db, a);
      }
    }
    if a in db'.approvals {
      assert LinksOf(db', a) == LinksOf(cut, a);
      assert Coverage(db', a) == Coverage(db, a) - {task};
    }
  }

  lemma {:induction false} DeleteKeepsApprovalsSound(db: Tables, task: Id)
    requires WellFormed(db) && OnePendingPerTask(db)
    ensures WellFormed(AfterTaskDelete(db, task)) && OnePendingPerTask(AfterTaskDelete(db, task))
  {
    var db' := AfterTaskDelete(db, task);
    var cut := WithoutLinks(db, task);
    forall a | a in db'.links && db'.links[a] != []
      ensures db'.approvals[a].taskId.Some? && db'.approvals[a].taskId.value in db'.links[a]
    {
      assert db'.links[a] == LinksOf(cut, a) == Without(db.links[a], task);
    }
    forall b, a1, a2 | IsPending(db', b, a1, None) && IsPending(db', b, a2, None) && a1 != a2
      ensures Coverage(db', a1) !! Coverage(db', a2)
    {
      assert IsPending(db, b, a1, None) && IsPending(db, b, a2, None);
      DeleteCutsCoverage(db, task, a1);
      DeleteCutsCoverage(db, task, a2);
    }
  }

  /** No approval row, no link row and no dependency row mentions the deleted task. */
  lemma {:induction false} DeleteLeavesNoReference(db: Tables, rows: TaskDependencies.Rows, task: Id)
    requires WellFormed(db)
    ensures var db' := AfterTaskDelete(db, task);
      && (forall a | a in db'.approvals :: db'.approvals[a].taskId != Some(task) && task !in LinksOf(db', a))
      && (forall r | r in TaskDependencies.WithoutTask(rows, task) :: r.taskId != task && r.dependsOnTaskId != task)
  {
    var cut := WithoutLinks(db, task);
    forall a | a in AfterTaskDelete(db, task).approvals
      ensures AfterTaskDelete(db, task).approvals[a].taskId != Some(task)
        && task !in LinksOf(AfterTaskDelete(db, task), a)
    {
      assert a in db.links ==> LinksOf(cut, a) == Without(db.links[a], task);
    }
  }
}
