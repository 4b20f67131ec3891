/** Concurrent requests that make approvals pending, statement by statement, under task row locks.
    Models the transactions of backend/app/api/approvals.py and `lock_tasks_for_approval` and
    `pending_approval_conflicts_by_task` of backend/app/services/approval_task_links.py.
    Every statement sees the data committed before it starts; commits are atomic. */
module ApprovalLocking {
  import opened Models
  import opened ApprovalTaskLinks

  // ---------------------------------------------------------------------------
  // Transactions
  // ---------------------------------------------------------------------------

  /** A request that will make an approval pending: a new one, or a resolved one set back. */
  datatype Request =
    | CreatePending(boardId: Id, newId: Id, taskIds: seq<Id>, now: Time)
    | Reopen(boardId: Id, approval: Id)

  /** The statement a transaction executes next. */
  datatype Phase =
    | Load
    | Lock(next: nat)
    | QueryLinked
    | QueryLegacy(linkedConflict: bool)
    | Write
    | Committed
    | Aborted

  /** `targets` are the task ids the conflict check is about, `order` the existing rows among them, ascending. */
  datatype Txn = Txn(request: Request, targets: seq<Id>, order: seq<Id>, phase: Phase)

  /** `tasks` are the rows of the task table; `owner` maps a locked row to the transaction holding it. */
  datatype State = State(tasks: set<Id>, db: Tables, owner: map<Id, Id>, txns: map<Id, Txn>)

  datatype Action =
    | Begin(txn: Id, request: Request)
    | Advance(txn: Id)
    | Resolve(approval: Id, status: ApprovalStatus)
    | CreateResolved(newId: Id, boardId: Id, taskIds: seq<Id>, status: ApprovalStatus, now: Time)

  predicate Ascending(s: seq<Id>) {
    forall i, j :: 0 <= i < j < |s| ==> s[i] < s[j]
  }

  function Inserted(s: seq<Id>, x: Id): (r: seq<Id>)
    requires Ascending(s)
    ensures Ascending(r) && forall y :: y in r <==> y == x || y in s
  {
    if s == [] then [x]
    else
      var init, last := s[..|s| - 1], s[|s| - 1];
      assert forall y :: y in s <==> y in init || y == last;
      if x == last then s
      else if x > last then s + [x]
      else
        var r := Inserted(init, x);
        assert forall i | 0 <= i < |r| :: r[i] in r && r[i] < last;
        r + [last]
  }

  ghost predicate IsLockOrder(order: seq<Id>, taskIds: seq<Id>, tasks: set<Id>) {
    Ascending(order) && forall t :: t in order <==> t in taskIds && t in tasks
  }

  /** `sorted({*task_ids})`, restricted to the rows that exist. */
  function LockOrder(taskIds: seq<Id>, tasks: set<Id>): (r: seq<Id>)
    ensures IsLockOrder(r, taskIds, tasks)
  {
    if taskIds == [] then []
    else
      var rest := LockOrder(taskIds[1..], tasks);
      if taskIds[0] in tasks then Inserted(rest, taskIds[0]) else rest
  }

  function Excluded(request: Request): Option<Id> {
    if request.Reopen? then Some(request.approval) else None
  }

  function CoverageSeq(db: Tables, approval: Id): (r: seq<Id>)
    requires approval in db.approvals
    ensures forall t :: t in r <==> t in Coverage(db, approval)
  {
    if LinksOf(db, approval) != [] then LinksOf(db, approval)
    else match db.approvals[approval].taskId
      case None => []
      case Some(t) => [t]
  }

  /** Whether one of the two conflict queries returns a row. */
  ghost predicate Conflicting(db: Tables, txn: Txn, linked: bool) {
    exists a: Id, t: Id :: IsPending(db, txn.request.boardId, a, Excluded(txn.request)) && IsLinked(db, a) == linked
      && t in txn.targets && t in Coverage(db, a)
  }

  predicate Finished(txn: Txn) {
    txn.phase.Committed? || txn.phase.Aborted?
  }

  function Held(txn: Txn): seq<Id> {
    match txn.phase
    case Lock(next) => if next <= |txn.order| then txn.order[..next] else txn.order
    case QueryLinked => txn.order
    case QueryLegacy(_) => txn.order
    case Write => txn.order
    case _ => []
  }

  // ---------------------------------------------------------------------------
  // Steps
  // ---------------------------------------------------------------------------

  function WithTxn(s: State, id: Id, txn: Txn): State {
    s.(txns := s.txns[id := txn])
  }

  /** The end of a transaction releases its row locks. */
  function Ended(s: State, id: Id, txn: Txn, phase: Phase): State {
    WithTxn(s, id, txn.(phase := phase)).(owner := map t | t in s.owner && s.owner[t] != id :: s.owner[t])
  }

  function FirstPhase(targets: seq<Id>): Phase {
    if targets == [] then Write else Lock(0)
  }

  function Loaded(s: State, id: Id, txn: Txn): State {
    match txn.request
    case CreatePending(_, _, taskIds, _) =>
      WithTxn(s, id, txn.(targets := taskIds, order := LockOrder(taskIds, s.tasks), phase := FirstPhase(taskIds)))
    case Reopen(boardId, a) =>
      if a !in s.db.approvals || s.db.approvals[a].boardId != boardId then Ended(s, id, txn, Aborted)
      else if s.db.approvals[a].status == Pending then Ended(s, id, txn, Committed)
      else
        var targets := CoverageSeq(s.db, a);
        WithTxn(s, id, txn.(targets := targets, order := LockOrder(targets, s.tasks), phase := FirstPhase(targets)))
  }

  /** The insert or update and the commit. A primary or foreign key violation aborts. */
  function Written(s: State, id: Id, txn: Txn): State {
    match txn.request
    case CreatePending(boardId, newId, taskIds, now) =>
      if newId in s.db.approvals || exists t | t in taskIds :: t !in s.tasks then Ended(s, id, txn, Aborted)
      else Ended(s.(db := WithApproval(s.db, newId, boardId, taskIds, Pending, now)), id, txn, Committed)
    case Reopen(_, a) =>
      if a !in s.db.approvals then Ended(s, id, txn, Aborted)
      else Ended(s.(db := WithStatus(s.db, a, Pending)), id, txn, Committed)
  }

  ghost function Advanced(s: State, id: Id): State
    requires id in s.txns
  {
    var txn := s.txns[id];
    match txn.phase
    case Load => Loaded(s, id, txn)
    case Lock(next) =>
      if next >= |txn.order| then WithTxn(s, id, txn.(phase := QueryLinked))
      else if txn.order[next] in s.owner then s
      else WithTxn(s, id, txn.(phase := Lock(next + 1))).(owner := s.owner[txn.order[next] := id])
    case QueryLinked => WithTxn(s, id, txn.(phase := QueryLegacy(Conflicting(s.db, txn, true))))
    case QueryLegacy(found) =>
      if found || Conflicting(s.db, txn, false) then Ended(s, id, txn, Aborted)
        else WithTxn(s, id, txn.(phase := Write))
    case Write => Written(s, id, txn)
    case _ => s
  }

  /** The effect of an action; an action that is not possible in `s` leaves it unchanged. */
  ghost function Step(s: State, action: Action): State {
    match action
    case Begin(id, request) =>
      if id in s.txns || !ValidRequest(request) then s else WithTxn(s, id, Txn(request, [], [], Load))
    case Advance(id) => if id in s.txns then Advanced(s, id) else s
    case Resolve(a, status) =>
      if a !in s.db.approvals || status == Pending then s else s.(db := WithStatus(s.db, a, status))
    case CreateResolved(newId, boardId, taskIds, status, now) =>
      if newId in s.db.approvals || status == Pending || !NoDuplicates(taskIds)
        || exists t | t in taskIds :: t !in s.tasks
      then s
      else s.(db := WithApproval(s.db, newId, boardId, taskIds, status, now))
  }

  /** Requests carry the output of `normalize_task_ids`, which has no duplicates. */
  predicate ValidRequest(request: Request) {
    request.CreatePending? ==> NoDuplicates(request.taskIds)
  }

  ghost function Run(s: State, actions: seq<Action>): State {
    if actions == [] then s else Step(Run(s, actions[..|actions| - 1]), actions[|actions| - 1])
  }

  // ---------------------------------------------------------------------------
  // The invariant
  // ---------------------------------------------------------------------------

  ghost predicate ForeignKeys(s: State) {
    forall a | a in s.db.approvals :: Coverage(s.db, a) <= s.tasks
  }

  ghost predicate LocksMatch(s: State) {
    && (forall t | t in s.owner :: s.owner[t] in s.txns && t in Held(s.txns[s.owner[t]]))
    && (forall id, t | id in s.txns && t in Held(s.txns[id]) :: t in s.owner && s.owner[t] == id)
  }

  /** What a transaction knows: its targets, and after each query that no such conflict exists. */
  ghost predicate TxnSound(s: State, txn: Txn) {
    && ValidRequest(txn.request)
    && IsLockOrder(txn.order, txn.targets, s.tasks)
    && (txn.phase.Lock? ==> txn.phase.next <= |txn.order|)
    && (!txn.phase.Load? && !Finished(txn) ==>
          match txn.request
          case CreatePending(_, _, taskIds, _) => txn.targets == taskIds
          case Reopen(boardId, a) =>
            a in s.db.approvals && s.db.approvals[a].boardId == boardId && txn.targets == CoverageSeq(s.db, a))
    && (txn.phase == QueryLegacy(false) ==> !Conflicting(s.db, txn, true))
    && (txn.phase == Write ==> !Conflicting(s.db, txn, true) && !Conflicting(s.db, txn, false))
  }

  ghost predicate Inv(s: State) {
    && WellFormed(s.db) && OnePendingPerTask(s.db) && ForeignKeys(s)
    && LocksMatch(s)
    && forall id | id in s.txns :: TxnSound(s, s.txns[id])
  }

  ghost predicate Init(s: State) {
    && WellFormed(s.db) && OnePendingPerTask(s.db) && ForeignKeys(s)
    && s.owner == map[] && s.txns == map[]
  }

  /** Approvals keep their board and their coverage: what a transaction has read about them stays true. */
  ghost predicate Extends(db: Tables, db': Tables) {
    forall a | a in db.approvals ::
      && a in db'.approvals && db'.approvals[a].boardId == db.approvals[a].boardId
      && LinksOf(db', a) == LinksOf(db, a) && db'.approvals[a].taskId == db.approvals[a].taskId
  }

  /** The pending approvals of db' that cover one of the transaction's targets are pending in db. */
  ghost predicate NothingNewFor(db: Tables, db': Tables, txn: Txn) {
    forall a | a in db'.approvals && db'.approvals[a].status == Pending &&
      (exists t | t in txn.targets :: t in Coverage(db', a)) ::
      a in db.approvals && db.approvals[a].status == Pending
  }

  lemma {:induction false} ConflictTransfer(db: Tables, db': Tables, txn: Txn, linked: bool)
    requires Extends(db, db') && NothingNewFor(db, db', txn)
    requires Conflicting(db', txn, linked)
    ensures Conflicting(db, txn, linked)
  {
    var a: Id, t: Id :| IsPending(db', txn.request.boardId, a, Excluded(txn.request)) && IsLinked(db', a) == linked
      && t in txn.targets && t in Coverage(db', a);
    assert IsPending(db, txn.request.boardId, a, Excluded(txn.request));
    assert t in Coverage(db, a);
  }

  lemma {:induction false} StaysSound(s: State, s': State, txn: Txn)
    requires TxnSound(s, txn)
    requires s'.tasks == s.tasks && Extends(s.db, s'.db)
    requires txn.phase.QueryLegacy? || txn.phase.Write? ==> NothingNewFor(s.db, s'.db, txn)
    ensures TxnSound(s', txn)
  {
    if txn.phase.QueryLegacy? || txn.phase.Write? {
      if Conflicting(s'.db, txn, true) { ConflictTransfer(s.db, s'.db, txn, true); }
      if Conflicting(s'.db, txn, false) { ConflictTransfer(s.db, s'.db, txn, false); }
    }
  }

  /** A writer and a transaction past its first query have no existing target in common. */
  lemma {:induction false} LocksExclude(s: State, id: Id, other: Id, t: Id)
    requires LocksMatch(s) && id in s.txns && other in s.txns && id != other
    requires TxnSound(s, s.txns[id]) && TxnSound(s, s.txns[other])
    requires s.txns[id].phase == Write
    requires s.txns[other].phase.QueryLegacy? || s.txns[other].phase.Write?
    requires t in s.tasks && t in s.txns[id].targets
    ensures t !in s.txns[other].targets
  {
    var held := Held(s.txns[other]);
    assert t in Held(s.txns[id]);
    assert s.owner[t] == id;
    assert t !in held;
    assert t in s.txns[other].targets ==> t in held;
  }

  /** Releasing the locks of one transaction keeps the lock table exact. */
  lemma {:induction false} EndedKeepsLocks(s: State, id: Id, txn: Txn, phase: Phase)
    requires LocksMatch(s) && id in s.txns && (phase.Committed? || phase.Aborted?)
    ensures LocksMatch(Ended(s, id, txn, phase))
  {
    var s' := Ended(s, id, txn, phase);
    forall other, t | other in s'.txns && t in Held(s'.txns[other]) ensures t in s'.owner && s'.owner[t] == other {
      assert other != id && other in s.txns && t in Held(s.txns[other]);
    }
  }

  lemma {:induction false} EndedKeepsInv(s: State, id: Id, txn: Txn, phase: Phase)
    requires Inv(s) && id in s.txns && (phase.Committed? || phase.Aborted?)
    requires IsLockOrder(txn.order, txn.targets, s.tasks) && ValidRequest(txn.request)
    ensures Inv(Ended(s, id, txn, phase))
  {
    var s' := Ended(s, id, txn, phase);
    EndedKeepsLocks(s, id, txn, phase);
    forall other | other in s'.txns ensures TxnSound(s', s'.txns[other]) {
      if other != id {
        StaysSound(s, s', s.txns[other]);
      }
    }
  }

  /** The transactions other than the writer after a commit that makes `target` pending. */
  lemma {:induction false} WriteKeepsOthers(s: State, db': Tables, id: Id, target: Id)
    requires Inv(s) && id in s.txns && s.txns[id].phase == Write
    requires Extends(s.db, db') && WellFormed(db') && OnePendingPerTask(db')
    requires target in db'.approvals && Coverage(db', target) <= s.tasks
    requires forall t | t in Coverage(db', target) :: t in s.txns[id].targets
    requires forall a | a in db'.approvals && a != target ::
      a in s.db.approvals && db'.approvals[a] == s.db.approvals[a]
    ensures forall other | other in s.txns && other != id :: TxnSound(s.(db := db'), s.txns[other])
    ensures ForeignKeys(s.(db := db'))
  {
    forall other | other in s.txns && other != id ensures TxnSound(s.(db := db'), s.txns[other]) {
      var txn := s.txns[other];
      if txn.phase.QueryLegacy? || txn.phase.Write? {
        forall t | t in Coverage(db', target) ensures t !in txn.targets {
          LocksExclude(s, id, other, t);
        }
      }
      StaysSound(s, s.(db := db'), txn);
    }
    forall a | a in db'.approvals ensures Coverage(db', a) <= s.tasks {
      if a != target {
        assert Coverage(db', a) == Coverage(s.db, a);
      }
    }
  }

  lemma {:induction false} CreateWriteKeepsInv(s: State, id: Id)
    requires Inv(s) && id in s.txns && s.txns[id].phase == Write && s.txns[id].request.CreatePending?
    ensures Inv(Written(s, id, s.txns[id]))
  {
    var txn := s.txns[id];
    var CreatePending(boardId, newId, taskIds, now) := txn.request;
    if newId in s.db.approvals || exists t | t in taskIds :: t !in s.tasks {
      EndedKeepsInv(s, id, txn, Aborted);
    } else {
      NoConflictMeansUncovered(s.db, txn);
      CreateKeepsOnePending(s.db, newId, boardId, taskIds, Pending, now);
      var db' := WithApproval(s.db, newId, boardId, taskIds, Pending, now);
      WriteKeepsOthers(s, db', id, newId);
      WriteEnds(s, db', id);
    }
  }

  lemma {:induction false} ReopenWriteKeepsInv(s: State, id: Id)
    requires Inv(s) && id in s.txns && s.txns[id].phase == Write && s.txns[id].request.Reopen?
    ensures Inv(Written(s, id, s.txns[id]))
  {
    var txn := s.txns[id];
    var a := txn.request.approval;
    NoConflictMeansUncovered(s.db, txn);
    UpdateKeepsOnePending(s.db, a, Pending);
    var db' := WithStatus(s.db, a, Pending);
    assert Coverage(db', a) == Coverage(s.db, a);
    WriteKeepsOthers(s, db', id, a);
    WriteEnds(s, db', id);
  }

  lemma {:induction false} NoConflictMeansUncovered(db: Tables, txn: Txn)
    requires !Conflicting(db, txn, true) && !Conflicting(db, txn, false)
    ensures !AnyCovered(db, txn.request.boardId, (set t | t in txn.targets), Excluded(txn.request))
  {
  }

  lemma {:induction false} WriteEnds(s: State, db': Tables, id: Id)
    requires Inv(s) && id in s.txns && s.txns[id].phase == Write
    requires WellFormed(db') && OnePendingPerTask(db') && ForeignKeys(s.(db := db'))
    requires forall other | other in s.txns && other != id :: TxnSound(s.(db := db'), s.txns[other])
    ensures Inv(Ended(s.(db := db'), id, s.txns[id], Committed))
  {
    var mid := s.(db := db');
    var s' := Ended(mid, id, s.txns[id], Committed);
    EndedKeepsLocks(mid, id, s.txns[id], Committed);
    forall other | other in s'.txns ensures TxnSound(s', s'.txns[other]) {
      if other != id {
        StaysSound(mid, s', s.txns[other]);
      }
    }
  }

  /** Only the entry of `id` may differ. */
  ghost predicate OnlyTxnChanges(s: State, s': State, id: Id) {
    && id in s'.txns && s'.tasks == s.tasks && s'.db == s.db
    && forall other | other != id ::
      (other in s.txns <==> other in s'.txns) && (other in s.txns ==> s'.txns[other] == s.txns[other])
  }

  /** A step that changes only the phase of one transaction, and possibly takes one more lock. */
  lemma {:induction false} PhaseChangeKeepsInv(s: State, s': State, id: Id)
    requires Inv(s) && OnlyTxnChanges(s, s', id)
    requires LocksMatch(s') && TxnSound(s', s'.txns[id])
    ensures Inv(s')
  {
    forall other | other in s'.txns ensures TxnSound(s', s'.txns[other]) {
      if other != id {
        StaysSound(s, s', s.txns[other]);
      }
    }
  }

  lemma {:induction false} SameHeldKeepsLocks(s: State, s': State, id: Id)
    requires LocksMatch(s) && OnlyTxnChanges(s, s', id) && s'.owner == s.owner
    requires Held(s'.txns[id]) == if id in s.txns then Held(s.txns[id]) else []
    ensures LocksMatch(s')
  {
  }

  lemma {:induction false} OneMoreLock(s: State, s': State, id: Id, t: Id)
    requires LocksMatch(s) && id in s.txns && OnlyTxnChanges(s, s', id) && s'.owner == s.owner[t := id] && t !in s.owner
    requires Held(s'.txns[id]) == Held(s.txns[id]) + [t]
    ensures LocksMatch(s')
  {
  }

  lemma {:induction false} LoadIsSound(s: State, id: Id, txn: Txn)
    requires TxnSound(s, txn) && txn.phase == Load && id in s.txns
    requires !Finished(Loaded(s, id, txn).txns[id])
    ensures TxnSound(Loaded(s, id, txn), Loaded(s, id, txn).txns[id])
  {
  }

  lemma {:induction false} LoadKeepsInv(s: State, id: Id)
    requires Inv(s) && id in s.txns && s.txns[id].phase == Load
    ensures Inv(Loaded(s, id, s.txns[id]))
  {
    var txn := s.txns[id];
    var s' := Loaded(s, id, txn);
    if Finished(s'.txns[id]) {
      EndedKeepsInv(s, id, txn, s'.txns[id].phase);
    } else {
      LoadIsSound(s, id, txn);
      assert s'.owner == s.owner && OnlyTxnChanges(s, s', id);
      LoadHolds(s, id, txn);
      SameHeldKeepsLocks(s, s', id);
      PhaseChangeKeepsInv(s, s', id);
    }
  }

  lemma {:induction false} LoadHolds(s: State, id: Id, txn: Txn)
    requires !Finished(Loaded(s, id, txn).txns[id])
    ensures Held(Loaded(s, id, txn).txns[id]) == []
  {
    var loaded := Loaded(s, id, txn).txns[id];
    if loaded.phase == Write {
      assert loaded.targets == [];
    }
  }

  lemma {:induction false} LockKeepsInv(s: State, id: Id)
    requires Inv(s) && id in s.txns && s.txns[id].phase.Lock?
    ensures Inv(Advanced(s, id))
  {
    var txn := s.txns[id];
    var next := txn.phase.next;
    assert TxnSound(s, txn);
    if next >= |txn.order| {
      var s' := Advanced(s, id);
      assert Held(s'.txns[id]) == txn.order && Held(txn) == txn.order[..next] == txn.order;
      SameHeldKeepsLocks(s, s', id);
      PhaseChangeKeepsInv(s, s', id);
    } else if txn.order[next] !in s.owner {
      TakenLockKeepsInv(s, id, next);
    }
  }

  lemma {:induction false} TakenLockKeepsInv(s: State, id: Id, next: nat)
    requires Inv(s) && id in s.txns && s.txns[id].phase == Lock(next)
    requires next < |s.txns[id].order| && s.txns[id].order[next] !in s.owner
    ensures Inv(Advanced(s, id))
  {
    hide Inv;
    var txn := s.txns[id];
    var s' := Advanced(s, id);
    assert LocksMatch(s) && TxnSound(s, txn) by { InvFacts(s, id); }
    assert Held(s'.txns[id]) == Held(txn) + [txn.order[next]];
    OneMoreLock(s, s', id, txn.order[next]);
    PhaseChangeKeepsInv(s, s', id);
  }

  lemma {:induction false} InvFacts(s: State, id: Id)
    requires Inv(s) && id in s.txns
    ensures LocksMatch(s) && TxnSound(s, s.txns[id])
  {
  }

  lemma {:induction false} QueryLinkedKeepsInv(s: State, id: Id)
    requires Inv(s) && id in s.txns && s.txns[id].phase.QueryLinked?
    ensures Inv(Advanced(s, id))
  {
    var s' := Advanced(s, id);
    SameHeldKeepsLocks(s, s', id);
    SameConflicts(s.db, s.txns[id], s'.txns[id]);
    PhaseChangeKeepsInv(s, s', id);
  }

  lemma {:induction false} QueryLegacyKeepsInv(s: State, id: Id)
    requires Inv(s) && id in s.txns && s.txns[id].phase.QueryLegacy?
    ensures Inv(Advanced(s, id))
  {
    var txn := s.txns[id];
    var s' := Advanced(s, id);
    if txn.phase.linkedConflict || Conflicting(s.db, txn, false) {
      EndedKeepsInv(s, id, txn, Aborted);
    } else {
      SameHeldKeepsLocks(s, s', id);
      SameConflicts(s.db, txn, s'.txns[id]);
      PhaseChangeKeepsInv(s, s', id);
    }
  }

  lemma {:induction false} SameConflicts(db: Tables, a: Txn, b: Txn)
    requires a.request == b.request && a.targets == b.targets
    ensures forall linked :: Conflicting(db, a, linked) == Conflicting(db, b, linked)
  {
  }

  lemma {:induction false} AdvanceKeepsInv(s: State, id: Id)
    requires Inv(s) && id in s.txns
    ensures Inv(Advanced(s, id))
  {
    match s.txns[id].phase {
      case Load => LoadKeepsInv(s, id);
      case Lock(_) => LockKeepsInv(s, id);
      case QueryLinked => QueryLinkedKeepsInv(s, id);
      case QueryLegacy(_) => QueryLegacyKeepsInv(s, id);
      case Write =>
        if s.txns[id].request.CreatePending? { CreateWriteKeepsInv(s, id); } else { ReopenWriteKeepsInv(s, id); }
      case _ =>
    }
  }

  lemma {:induction false} ResolvedWriteKeepsInv(s: State, db': Tables)
    requires Inv(s) && WellFormed(db') && OnePendingPerTask(db') && Extends(s.db, db') && ForeignKeys(s.(db := db'))
    requires forall a | a in db'.approvals && db'.approvals[a].status == Pending ::
      a in s.db.approvals && s.db.approvals[a].status == Pending
    ensures Inv(s.(db := db'))
  {
    forall id | id in s.txns ensures TxnSound(s.(db := db'), s.txns[id]) {
      StaysSound(s, s.(db := db'), s.txns[id]);
    }
  }

  lemma {:induction false} BeginKeepsInv(s: State, id: Id, request: Request)
    requires Inv(s) && id !in s.txns && ValidRequest(request)
    ensures Inv(WithTxn(s, id, Txn(request, [], [], Load)))
  {
    var s' := WithTxn(s, id, Txn(request, [], [], Load));
    SameHeldKeepsLocks(s, s', id);
    PhaseChangeKeepsInv(s, s', id);
  }

  lemma {:induction false} ResolveKeepsInv(s: State, a: Id, status: ApprovalStatus)
    requires Inv(s) && a in s.db.approvals && status != Pending
    ensures Inv(s.(db := WithStatus(s.db, a, status)))
  {
    hide LocksMatch, TxnSound;
    UpdateKeepsOnePending(s.db, a, status);
    var db' := WithStatus(s.db, a, status);
    assert forall other | other in db'.approvals :: Coverage(db', other) == Coverage(s.db, other);
    ResolvedWriteKeepsInv(s, db');
  }

  lemma {:induction false} CreateResolvedKeepsInv(s: State, newId: Id, boardId: Id,
    taskIds: seq<Id>, status: ApprovalStatus, now: Time)
    requires Inv(s) && newId !in s.db.approvals && status != Pending
    requires NoDuplicates(taskIds) && forall t | t in taskIds :: t in s.tasks
    ensures Inv(s.(db := WithApproval(s.db, newId, boardId, taskIds, status, now)))
  {
    hide LocksMatch, TxnSound;
    CreateKeepsOnePending(s.db, newId, boardId, taskIds, status, now);
    var db' := WithApproval(s.db, newId, boardId, taskIds, status, now);
    assert forall other | other in s.db.approvals :: Coverage(db', other) == Coverage(s.db, other);
    ResolvedWriteKeepsInv(s, db');
  }

  lemma {:induction false} StepKeepsInv(s: State, action: Action)
    requires Inv(s)
    ensures Inv(Step(s, action))
  {
    match action {
      case Begin(id, request) =>
        if id !in s.txns && ValidRequest(request) {
          BeginKeepsInv(s, id, request);
        }
      case Advance(id) =>
        if id in s.txns {
          AdvanceKeepsInv(s, id);
        }
      case Resolve(a, status) =>
        if a in s.db.approvals && status != Pending {
          ResolveKeepsInv(s, a, status);
        }
      case CreateResolved(newId, boardId, taskIds, status, now) =>
        if !(newId in s.db.approvals || status == Pending || !NoDuplicates(taskIds)
          || exists t | t in taskIds :: t !in s.tasks) {
          CreateResolvedKeepsInv(s, newId, boardId, taskIds, status, now);
        }
    }
  }

  lemma {:induction false} RunKeepsInv(s: State, actions: seq<Action>)
    requires Init(s)
    ensures Inv(Run(s, actions))
  {
    if actions != [] {
      RunKeepsInv(s, actions[..|actions| - 1]);
      StepKeepsInv(Run(s, actions[..|actions| - 1]), actions[|actions| - 1]);
    }
  }

  // ---------------------------------------------------------------------------
  // Main results
  // ---------------------------------------------------------------------------

  /** In every interleaving, no board ever has two committed pending approvals covering one task. */
  lemma {:induction false} NeverTwoPending(s: State, actions: seq<Action>, boardId: Id, a1: Id, a2: Id, task: Id)
    requires Init(s)
    requires var db := Run(s, actions).db;
      && IsPending(db, boardId, a1, None) && task in Coverage(db, a1)
      && IsPending(db, boardId, a2, None) && task in Coverage(db, a2)
    ensures a1 == a2
  {
    RunKeepsInv(s, actions);
  }

  /** In every interleaving, and whatever statement they are at, no two transactions hold the row of one task; and from
      its last lock to its end a transaction holds the rows of all its targets that exist. */
  lemma {:induction false} LocksAreExclusive(s: State, actions: seq<Action>, id: Id, other: Id)
    requires Init(s)
    requires id in Run(s, actions).txns && other in Run(s, actions).txns && id != other
    ensures var txns := Run(s, actions).txns; forall t | t in Held(txns[id]) :: t !in Held(txns[other])
    ensures var txn := Run(s, actions).txns[id];
      txn.phase.QueryLinked? || txn.phase.QueryLegacy? || txn.phase.Write? ==>
        forall t | t in txn.targets && t in Run(s, actions).tasks :: t in Held(txn)
  {
    hide Init, Inv, Run;
    var r := Run(s, actions);
    RunKeepsInv(s, actions);
    InvFacts(r, id);
    forall t | t in Held(r.txns[id]) ensures t !in Held(r.txns[other]) {
      assert r.owner[t] == id;
    }
  }

  /** Whether the next statement of a transaction would have to wait for a row lock. */
  predicate Waiting(s: State, txn: Txn) {
    txn.phase.Lock? && txn.phase.next < |txn.order| && txn.order[txn.phase.next] in s.owner
  }

  /** No deadlock: among unfinished transactions there is always one whose next statement need not wait. */
  lemma {:induction false} SomeTransactionCanStep(s: State, actions: seq<Action>)
    requires Init(s)
    requires exists id | id in Run(s, actions).txns :: !Finished(Run(s, actions).txns[id])
    ensures exists id | id in Run(s, actions).txns ::
      !Finished(Run(s, actions).txns[id]) && !Waiting(Run(s, actions), Run(s, actions).txns[id])
  {
    var r := Run(s, actions);
    RunKeepsInv(s, actions);
    if forall id | id in r.txns && !Finished(r.txns[id]) :: Waiting(r, r.txns[id]) {
      var id: Id :| id in r.txns && !Finished(r.txns[id]);
      WaitingForever(r, id, r.owner.Keys);
    }
  }

  /** If everyone waits, each wait leads to a wait for a larger row: `above` bounds the rows still possible. */
  lemma {:induction false} WaitingForever(r: State, id: Id, above: set<Id>)
    requires LocksMatch(r) && (forall u | u in r.txns :: Ascending(r.txns[u].order))
    requires id in r.txns && Waiting(r, r.txns[id])
    requires forall u | u in r.txns && !Finished(r.txns[u]) :: Waiting(r, r.txns[u])
    requires forall t | t in r.owner && t >= r.txns[id].order[r.txns[id].phase.next] :: t in above
    ensures false
    decreases above
  {
    var wanted := r.txns[id].order[r.txns[id].phase.next];
    var holder := r.owner[wanted];
    assert wanted in Held(r.txns[holder]);
    assert Waiting(r, r.txns[holder]);
    var i :| 0 <= i < r.txns[holder].phase.next && r.txns[holder].order[i] == wanted;
    assert wanted < r.txns[holder].order[r.txns[holder].phase.next];
    WaitingForever(r, holder, above - {wanted});
  }
}
