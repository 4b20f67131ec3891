/** The interleaved approval transactions do what the handlers do one request at a time: each commit does so at the
    moment it happens, and a transaction that runs alone comes to the same end as the handler. */
module ApprovalSerial {
  import opened Models
  import opened ApprovalTaskLinks
  import opened ApprovalLocking

  /** Some task of the request is named by a pending approval other than the one being reopened. */
  ghost predicate InConflict(db: Tables, boardId: Id, targets: seq<Id>, exclude: Option<Id>) {
    exists t: Id, a: Id :: t in targets && PendingFor(db, boardId, a, t) && exclude != Some(a)
  }

  /** The end of the request and the tables it leaves when it is handled alone. */
  ghost function Sequential(db: Tables, tasks: set<Id>, request: Request): (Phase, Tables) {
    match request
    case CreatePending(boardId, newId, taskIds, now) =>
      if InConflict(db, boardId, taskIds, None) || newId in db.approvals || exists t | t in taskIds :: t !in tasks
      then (Aborted, db)
      else (Committed, WithApproval(db, newId, boardId, taskIds, Pending, now))
    case Reopen(boardId, a) =>
      if a !in db.approvals || db.approvals[a].boardId != boardId then (Aborted, db)
      else if db.approvals[a].status == Pending then (Committed, db)
      else if InConflict(db, boardId, CoverageSeq(db, a), Some(a)) then (Aborted, db)
      else (Committed, db.(approvals := db.approvals[a := db.approvals[a].(status := Pending)]))
  }

  /** The two queries together find every conflict. */
  lemma {:induction false} QueriesFindConflicts(db: Tables, txn: Txn)
    ensures Conflicting(db, txn, true) || Conflicting(db, txn, false) <==>
      InConflict(db, txn.request.boardId, txn.targets, Excluded(txn.request))
  {
    var b, exclude := txn.request.boardId, Excluded(txn.request);
    forall linked: bool | Conflicting(db, txn, linked) ensures InConflict(db, b, txn.targets, exclude) {
      var a: Id, t: Id :|
        IsPending(db, b, a, exclude) && IsLinked(db, a) == linked && t in txn.targets && t in Coverage(db, a);
      PendingForIs(db, b, a, t, exclude);
    }
    if InConflict(db, b, txn.targets, exclude) {
      var t: Id, a: Id :| t in txn.targets && PendingFor(db, b, a, t) && exclude != Some(a);
      PendingForIs(db, b, a, t, exclude);
      assert Conflicting(db, txn, IsLinked(db, a));
    }
  }

  // ---------------------------------------------------------------------------
  // Commits
  // ---------------------------------------------------------------------------

  /** Whatever else is going on, a transaction that commits its write leaves exactly what the handler would leave at
      that moment, and the handler would not refuse it. */
  lemma {:induction false} CommitIsSequential(s: State, id: Id)
    requires Inv(s) && id in s.txns && s.txns[id].phase == Write
    ensures var s' := Advanced(s, id);
      (s'.txns[id].phase, s'.db) == Sequential(s.db, s.tasks, s.txns[id].request)
  {
    var txn := s.txns[id];
    if txn.request.Reopen? && s.db.approvals[txn.request.approval].status == Pending {
      assert s.db.approvals[txn.request.approval := s.db.approvals[txn.request.approval]] == s.db.approvals;
    }
    assert TxnSound(s, txn);
    QueriesFindConflicts(s.db, txn);
  }

  // ---------------------------------------------------------------------------
  // A transaction alone
  // ---------------------------------------------------------------------------

  /** n statements of one transaction, nobody else doing anything. */
  ghost function Alone(s: State, id: Id, n: nat): State
    decreases n
  {
    if n == 0 || id !in s.txns then s else Alone(Advanced(s, id), id, n - 1)
  }

  lemma {:induction false} AloneFurther(s: State, id: Id, n: nat, m: nat)
    ensures Alone(s, id, n + m) == Alone(Alone(s, id, n), id, m)
    decreases n
  {
    hide Advanced;
    if n > 0 && id in s.txns {
      AloneFurther(Advanced(s, id), id, n - 1, m);
    }
  }

  /** It takes its locks one by one. */
  lemma {:induction false} LocksAlone(s: State, id: Id) returns (n: nat)
    requires id in s.txns && s.txns[id].phase.Lock? && s.txns[id].phase.next <= |s.txns[id].order|
    requires Ascending(s.txns[id].order)
    requires forall i :: s.txns[id].phase.next <= i < |s.txns[id].order| ==> s.txns[id].order[i] !in s.owner
    ensures var t := Alone(s, id, n);
      id in t.txns && t.txns[id] == s.txns[id].(phase := QueryLinked) && t.db == s.db && t.tasks == s.tasks
    decreases |s.txns[id].order| - s.txns[id].phase.next
  {
    var txn := s.txns[id];
    var next := Advanced(s, id);
    if txn.phase.next == |txn.order| {
      n := 1;
      assert Alone(next, id, 0) == next;
    } else {
      var k := LocksAlone(next, id);
      n := k + 1;
    }
  }

  /** Its queries see the tables as they are, and then it writes or not. */
  lemma {:induction false} QueriesAlone(s: State, id: Id)
    requires id in s.txns && s.txns[id].phase == QueryLinked
    ensures var t, txn := Alone(s, id, 3), s.txns[id];
      && id in t.txns
      && if InConflict(s.db, txn.request.boardId, txn.targets, Excluded(txn.request))
         then t.db == s.db && t.txns[id].phase == Aborted
         else t.db == Written(s, id, txn).db && t.txns[id].phase == Written(s, id, txn).txns[id].phase
  {
    hide Conflicting, InConflict;
    var txn := s.txns[id];
    QueriesFindConflicts(s.db, txn);
    var s1 := Advanced(s, id);
    QueriesFindConflicts(s1.db, s1.txns[id]);
    SameConflicts(s.db, txn, s1.txns[id]);
    var s2 := Advanced(s1, id);
    assert Alone(s, id, 3) == Alone(s1, id, 2) == Alone(s2, id, 1) == Advanced(s2, id);
  }

  /** What it finds when it loads its approval; a request without tasks has nothing to lock. */
  lemma {:induction false} LoadAlone(s: State, id: Id)
    requires id in s.txns && s.txns[id].phase == Load && s.owner == map[]
    ensures var s1 := Advanced(s, id);
      && id in s1.txns && s1.db == s.db && s1.tasks == s.tasks && s1.txns[id].request == s.txns[id].request
      && (Finished(s1.txns[id]) ==> (s1.txns[id].phase, s1.db) == Sequential(s.db, s.tasks, s.txns[id].request))
      && (!Finished(s1.txns[id]) ==> ReadyToLock(s1, id))
  {
    hide WithApproval;
  }

  /** The targets are known, no row is locked, and the handler would go on to its check. */
  ghost predicate ReadyToLock(s: State, id: Id) {
    && id in s.txns && s.owner == map[] && Ascending(s.txns[id].order)
    && s.txns[id].phase == (if s.txns[id].targets == [] then Write else Lock(0))
    && match s.txns[id].request
       case CreatePending(_, _, taskIds, _) => s.txns[id].targets == taskIds
       case Reopen(b, a) =>
         && a in s.db.approvals && s.db.approvals[a].boardId == b && s.db.approvals[a].status != Pending
         && s.txns[id].targets == CoverageSeq(s.db, a)
  }

  lemma {:induction false} WriteAlone(s: State, id: Id, txn: Txn)
    requires ReadyToLock(s, id) && txn.request == s.txns[id].request && txn.targets == s.txns[id].targets
    ensures var t := Written(s, id, txn);
      && id in t.txns
      && Sequential(s.db, s.tasks, txn.request) ==
           if InConflict(s.db, txn.request.boardId, txn.targets, Excluded(txn.request)) then (Aborted, s.db)
           else (t.txns[id].phase, t.db)
  {
    hide WithApproval, InConflict;
  }

  /** A transaction that runs alone ends as the handler does and leaves what the handler leaves. */
  lemma {:induction false} AloneIsSequential(s: State, id: Id) returns (n: nat)
    requires id in s.txns && s.txns[id].phase == Load && s.owner == map[]
    ensures var t := Alone(s, id, n);
      id in t.txns && (t.txns[id].phase, t.db) == Sequential(s.db, s.tasks, s.txns[id].request)
  {
    hide Sequential, Written, InConflict;
    LoadAlone(s, id);
    var s1 := Advanced(s, id);
    assert Alone(s1, id, 0) == s1;
    if Finished(s1.txns[id]) {
      n := 1;
    } else if s1.txns[id].phase == Write {
      n := 2;
      WriteAlone(s1, id, s1.txns[id]);
      NoTasksNoConflict(s1, id);
      assert Alone(s1, id, 1) == Alone(Advanced(s1, id), id, 0) == Advanced(s1, id);
    } else {
      var k := LocksAlone(s1, id);
      var s2 := Alone(s1, id, k);
      QueriesAlone(s2, id);
      WriteAlone(s1, id, s2.txns[id]);
      WriteAgrees(s1, s2, id);
      n := 1 + (k + 3);
      AloneFurther(s1, id, k, 3);
      assert Alone(s, id, n) == Alone(s1, id, k + 3);
    }
  }

  lemma {:induction false} NoTasksNoConflict(s: State, id: Id)
    requires ReadyToLock(s, id) && s.txns[id].phase == Write
    ensures !InConflict(s.db, s.txns[id].request.boardId, s.txns[id].targets, Excluded(s.txns[id].request))
  {
  }

  /** What a write does to the tables does not depend on the locks. */
  lemma {:induction false} WriteAgrees(s: State, t: State, id: Id)
    requires id in s.txns && id in t.txns && s.db == t.db && s.tasks == t.tasks
    ensures Written(s, id, t.txns[id]).db == Written(t, id, t.txns[id]).db
    ensures Written(s, id, t.txns[id]).txns[id].phase == Written(t, id, t.txns[id]).txns[id].phase
  {
    hide WithApproval;
  }
}
