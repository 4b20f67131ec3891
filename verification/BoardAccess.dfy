/** Who may see and change which board: memberships, per-board grants, and invites.
    Models backend/app/services/organizations.py and the requests of backend/app/api/organizations.py that use it. */
module BoardAccess {
  import opened Models

  datatype Grant = Grant(canRead: bool, canWrite: bool)

  datatype Member = Member(org: Id, user: Id, role: string, allRead: bool, allWrite: bool)

  datatype Invite = Invite(org: Id, role: string, allRead: bool, allWrite: bool, accepted: bool)

  /** The unique key of an access row: a member or an invite, and a board. */
  datatype Row = Row(owner: Id, board: Id)

  /** `boards` gives each board its organization, `access` the members' rows and `offers` those of the invites. */
  datatype Db = Db(
    boards: map<Id, Id>, members: map<Id, Member>, access: map<Row, Grant>,
    invites: map<Id, Invite>, offers: map<Row, Grant>)

  // ---------------------------------------------------------------------------
  // The three forms of the check
  // ---------------------------------------------------------------------------

  predicate Allows(g: Grant, write: bool) {
    if write then g.canWrite else g.canRead || g.canWrite
  }

  predicate AllBoards(m: Member, write: bool) {
    if write then m.allWrite else m.allRead || m.allWrite
  }

  /** `has_board_access`. */
  predicate HasBoardAccess(db: Db, member: Id, board: Id, write: bool)
    requires member in db.members && board in db.boards
  {
    if db.members[member].org != db.boards[board] then false
    else if AllBoards(db.members[member], write) then true
    else Row(member, board) in db.access && Allows(db.access[Row(member, board)], write)
  }

  function GrantedBoards(db: Db, member: Id, write: bool): set<Id> {
    set r | r in db.access && r.owner == member && Allows(db.access[r], write) :: r.board
  }

  function BoardsOf(db: Db, org: Id): set<Id> {
    set b | b in db.boards && db.boards[b] == org
  }

  /** The boards that pass `board_access_filter`. */
  function FilteredBoards(db: Db, member: Id, write: bool): set<Id>
    requires member in db.members
  {
    set b | b in db.boards &&
      if AllBoards(db.members[member], write) then db.boards[b] == db.members[member].org
      else b in GrantedBoards(db, member, write)
  }

  /** `list_accessible_board_ids`, which reads the rows without looking at the boards. */
  function AccessibleBoardIds(db: Db, member: Id, write: bool): set<Id>
    requires member in db.members
  {
    if AllBoards(db.members[member], write) then BoardsOf(db, db.members[member].org)
    else GrantedBoards(db, member, write)
  }

  predicate FormsAgree(db: Db, member: Id, write: bool)
    requires member in db.members
  {
    && (forall b | b in db.boards :: HasBoardAccess(db, member, b, write) <==> b in FilteredBoards(db, member, write))
    && AccessibleBoardIds(db, member, write) == FilteredBoards(db, member, write)
  }

  /** Every row that would grant something is for a board of the member's organization. */
  predicate GrantsAtHome(db: Db, member: Id, write: bool)
    requires member in db.members
  {
    forall b | b in GrantedBoards(db, member, write) :: b in db.boards && db.boards[b] == db.members[member].org
  }

  /** Only `has_board_access` compares organizations: the forms agree exactly when nothing is granted elsewhere. */
  lemma {:induction false} FormsAgreeExactly(db: Db, member: Id, write: bool)
    requires member in db.members
    ensures FormsAgree(db, member, write) <==> AllBoards(db.members[member], write) || GrantsAtHome(db, member, write)
  {
    var m := db.members[member];
    if !AllBoards(m, write) {
      forall b | b in db.boards && db.boards[b] == m.org
        ensures HasBoardAccess(db, member, b, write) <==> b in GrantedBoards(db, member, write)
      {
        GrantedExactly(db, member, b, write);
      }
      if GrantsAtHome(db, member, write) {
        assert GrantedBoards(db, member, write) == FilteredBoards(db, member, write);
      }
      if FormsAgree(db, member, write) {
        forall b | b in GrantedBoards(db, member, write) ensures b in db.boards && db.boards[b] == m.org {
          assert b in FilteredBoards(db, member, write);
          assert HasBoardAccess(db, member, b, write);
        }
      }
    }
  }

  lemma {:induction false} GrantedExactly(db: Db, member: Id, board: Id, write: bool)
    ensures board in GrantedBoards(db, member, write) <==>
      Row(member, board) in db.access && Allows(db.access[Row(member, board)], write)
  {
    if board in GrantedBoards(db, member, write) {
      var r :| r in db.access && r.owner == member && Allows(db.access[r], write) && r.board == board;
      assert r == Row(member, board);
    }
  }

  // ---------------------------------------------------------------------------
  // Grants and invites
  // ---------------------------------------------------------------------------

  datatype Entry = Entry(board: Id, grant: Grant)

  function RoleRank(role: string): nat {
    if role == "owner" then 2 else if role == "admin" then 1 else 0
  }

  predicate Distinct(entries: seq<Entry>) {
    forall i, j :: 0 <= i < j < |entries| ==> entries[i].board != entries[j].board
  }

  function Boards(entries: seq<Entry>): set<Id> {
    set e | e in entries :: e.board
  }

  function EntryGrants(entries: seq<Entry>): map<Id, Grant> {
    if entries == [] then map[]
    else EntryGrants(entries[..|entries| - 1])[entries[|entries| - 1].board := entries[|entries| - 1].grant]
  }

  /** The rows of an owner, as a map from boards. */
  function GrantsOf(rows: map<Row, Grant>, owner: Id): map<Id, Grant> {
    map b | b in (set r | r in rows && r.owner == owner :: r.board) && Row(owner, b) in rows :: rows[Row(owner, b)]
  }

  function WithoutOwner(rows: map<Row, Grant>, owner: Id): map<Row, Grant> {
    map r | r in rows && r.owner != owner :: rows[r]
  }

  function WithoutBoard(rows: map<Row, Grant>, board: Id): map<Row, Grant> {
    map r | r in rows && r.board != board :: rows[r]
  }

  /** The rows of one owner replaced by others. */
  function Replaced(rows: map<Row, Grant>, owner: Id, grants: map<Id, Grant>): map<Row, Grant> {
    map r | r in rows.Keys + (set b | b in grants :: Row(owner, b)) && (r.owner != owner || r.board in grants) ::
      if r.owner == owner then grants[r.board] else rows[r]
  }

  /** `can_write` implies `can_read`. */
  function Normal(g: Grant): Grant { Grant(g.canRead || g.canWrite, g.canWrite) }

  function Merged(rows: map<Row, Grant>, r: Row, g: Grant): Grant {
    if r in rows then Grant(rows[r].canRead || Normal(g).canRead, rows[r].canWrite || g.canWrite) else Normal(g)
  }

  /** Grants added to the rows of one owner. */
  function Widened(rows: map<Row, Grant>, owner: Id, grants: map<Id, Grant>): map<Row, Grant> {
    map r | r in rows.Keys + (set b | b in grants :: Row(owner, b)) ::
      if r.owner == owner && r.board in grants then Merged(rows, r, grants[r.board])
      else if r in rows then rows[r]
      else Grant(false, false)
  }

  predicate Scoped(allRead: bool, allWrite: bool) { !allRead && !allWrite }

  /** What an invite grants. */
  predicate InviteGrants(db: Db, invite: Id, board: Id, write: bool)
    requires invite in db.invites && board in db.boards
  {
    var i := db.invites[invite];
    && i.org == db.boards[board]
    && ((if write then i.allWrite else i.allRead || i.allWrite)
        || (Row(invite, board) in db.offers && Allows(db.offers[Row(invite, board)], write)))
  }

  // ---------------------------------------------------------------------------
  // The operations
  // ---------------------------------------------------------------------------

  /** `accept_invite`: a new membership with the invite's role and flags and, if it is scoped, a copy of its rows. */
  function AcceptedBy(db: Db, invite: Id, user: Id, member: Id): Db
    requires invite in db.invites
  {
    var i := db.invites[invite];
    db.(
      members := db.members[member := Member(i.org, user, i.role, i.allRead, i.allWrite)],
      access :=
        if Scoped(i.allRead, i.allWrite) then Replaced(db.access, member, GrantsOf(db.offers, invite)) else db.access,
      invites := db.invites[invite := i.(accepted := true)])
  }

  function Promoted(m: Member, i: Invite): Member {
    var role := if RoleRank(i.role) > RoleRank(m.role) then i.role else m.role;
    if Scoped(i.allRead, i.allWrite) then m.(role := role)
    else m.(role := role, allRead := m.allRead || i.allRead || i.allWrite, allWrite := m.allWrite || i.allWrite)
  }

  /** `apply_invite_to_member`. */
  function AppliedTo(db: Db, invite: Id, member: Id): Db
    requires invite in db.invites && member in db.members
  {
    var i := db.invites[invite];
    db.(
      members := db.members[member := Promoted(db.members[member], i)],
      access :=
        if Scoped(i.allRead, i.allWrite) then Widened(db.access, member, GrantsOf(db.offers, invite)) else db.access)
  }

  datatype Request =
    | CreateBoard(board: Id, org: Id)
    | DeleteBoard(board: Id)
    | Provision(member: Id, user: Id, org: Id)
    | CreateInvite(invite: Id, org: Id, role: string, allRead: bool, allWrite: bool, entries: seq<Entry>)
    | RevokeInvite(invite: Id, org: Id)
    | AcceptInvite(invite: Id, user: Id, existing: Option<Id>, member: Id)
    | UpdateAccess(member: Id, org: Id, allRead: bool, allWrite: bool, entries: seq<Entry>)
    | UpdateRole(member: Id, org: Id, role: string)
    | RemoveMember(member: Id, caller: Id, org: Id)

  predicate MemberOf(db: Db, member: Id, org: Id) { member in db.members && db.members[member].org == org }

  /** The boards named in a request are boards of the organization, and rows would not be stored twice. */
  predicate EntriesFit(db: Db, org: Id, scoped: bool, entries: seq<Entry>) {
    Boards(entries) <= BoardsOf(db, org) && (scoped ==> Distinct(entries))
  }

  function Owners(db: Db, org: Id): set<Id> {
    set m | m in db.members && db.members[m].org == org && db.members[m].role == "owner"
  }

  predicate Accepts(db: Db, r: Request) {
    match r
    case CreateBoard(b, _) => b !in db.boards
    case DeleteBoard(b) => b in db.boards
    case Provision(m, _, _) => m !in db.members
    case CreateInvite(i, org, _, allRead, allWrite, entries) =>
      i !in db.invites && EntriesFit(db, org, Scoped(allRead, allWrite), entries)
    case RevokeInvite(i, org) => i in db.invites && db.invites[i].org == org
    case AcceptInvite(i, user, existing, m) =>
      && i in db.invites && !db.invites[i].accepted && m !in db.members
      && (existing.Some? ==> MemberOf(db, existing.value, db.invites[i].org) && db.members[existing.value].user == user)
    case UpdateAccess(m, org, allRead, allWrite, entries) =>
      MemberOf(db, m, org) && EntriesFit(db, org, Scoped(allRead, allWrite), entries)
    case UpdateRole(m, org, _) => MemberOf(db, m, org)
    case RemoveMember(m, caller, org) =>
      && MemberOf(db, m, org) && MemberOf(db, caller, org)
      && db.members[m].user != db.members[caller].user
      && (db.members[m].role == "owner" ==> db.members[caller].role == "owner" && |Owners(db, org)| > 1)
  }

  function Marked(db: Db, invite: Id): Db
    requires invite in db.invites
  {
    db.(invites := db.invites[invite := db.invites[invite].(accepted := true)])
  }

  function UpdatedAccess(db: Db, member: Id, allRead: bool, allWrite: bool, entries: seq<Entry>): Db
    requires member in db.members
  {
    db.(
      members := db.members[member := db.members[member].(allRead := allRead, allWrite := allWrite)],
      access := Replaced(db.access, member, if Scoped(allRead, allWrite) then EntryGrants(entries) else map[]))
  }

  /** A rejected request changes nothing. */
  function Next(db: Db, r: Request): Db {
    if !Accepts(db, r) then db
    else match r
      case CreateBoard(b, org) => db.(boards := db.boards[b := org])
      case DeleteBoard(b) =>
        db.(boards := db.boards - {b}, access := WithoutBoard(db.access, b), offers := WithoutBoard(db.offers, b))
      case Provision(m, user, org) => db.(members := db.members[m := Member(org, user, "owner", true, true)])
      case CreateInvite(i, org, role, allRead, allWrite, entries) =>
        db.(
          invites := db.invites[i := Invite(org, role, allRead, allWrite, false)],
          offers := Replaced(db.offers, i, if Scoped(allRead, allWrite) then EntryGrants(entries) else map[]))
      case RevokeInvite(i, _) => db.(invites := db.invites - {i}, offers := WithoutOwner(db.offers, i))
      case AcceptInvite(i, user, existing, m) =>
        if existing.Some? then Marked(AppliedTo(db, i, existing.value), i) else AcceptedBy(db, i, user, m)
      case UpdateAccess(m, _, allRead, allWrite, entries) => UpdatedAccess(db, m, allRead, allWrite, entries)
      case UpdateRole(m, _, role) => db.(members := db.members[m := db.members[m].(role := role)])
      case RemoveMember(m, _, _) => db.(members := db.members - {m}, access := WithoutOwner(db.access, m))
  }

  // ---------------------------------------------------------------------------
  // What every request keeps
  // ---------------------------------------------------------------------------

  ghost predicate AccessAtHome(db: Db) {
    forall r | r in db.access :: MemberOf(db, r.owner, OrgOf(db, r.board)) && r.board in db.boards
  }

  function OrgOf(db: Db, board: Id): Id {
    if board in db.boards then db.boards[board] else 0
  }

  ghost predicate OffersAtHome(db: Db) {
    forall r | r in db.offers ::
      && r.board in db.boards && r.owner in db.invites
      && db.invites[r.owner].org == db.boards[r.board]
      && Scoped(db.invites[r.owner].allRead, db.invites[r.owner].allWrite)
  }

  /** Every row, of a member or an invite, is for a board of the same organization; only scoped invites have rows. */
  ghost predicate Sound(db: Db) { AccessAtHome(db) && OffersAtHome(db) }

  lemma {:induction false} EntryGrantsBoards(entries: seq<Entry>)
    ensures EntryGrants(entries).Keys == Boards(entries)
    decreases |entries|
  {
    if entries != [] {
      EntryGrantsBoards(entries[..|entries| - 1]);
      assert entries == entries[..|entries| - 1] + [entries[|entries| - 1]];
    }
  }

  lemma {:induction false} UpdateKeepsAccess(db: Db, r: Request)
    requires Sound(db) && Accepts(db, r) && r.UpdateAccess?
    ensures AccessAtHome(Next(db, r))
  {
    EntryGrantsBoards(r.entries);
  }

  lemma {:induction false} AcceptKeepsAccess(db: Db, invite: Id, user: Id, member: Id)
    requires Sound(db) && invite in db.invites && member !in db.members
    ensures AccessAtHome(AcceptedBy(db, invite, user, member))
  {
    var after := AcceptedBy(db, invite, user, member);
    forall r | r in after.access ensures MemberOf(after, r.owner, OrgOf(after, r.board)) && r.board in after.boards {
      if r !in db.access {
        assert r.owner == member && Row(invite, r.board) in db.offers;
      }
    }
  }

  lemma {:induction false} ApplyKeepsAccess(db: Db, invite: Id, member: Id)
    requires Sound(db) && invite in db.invites && MemberOf(db, member, db.invites[invite].org)
    ensures AccessAtHome(AppliedTo(db, invite, member))
  {
    var after := AppliedTo(db, invite, member);
    forall r | r in after.access ensures MemberOf(after, r.owner, OrgOf(after, r.board)) && r.board in after.boards {
      if r !in db.access {
        assert r.owner == member && Row(invite, r.board) in db.offers;
      }
    }
  }

  lemma {:induction false} OtherStepsKeepAccess(db: Db, r: Request)
    requires Sound(db) && Accepts(db, r) && !r.UpdateAccess? && !r.AcceptInvite?
    ensures AccessAtHome(Next(db, r))
  {
  }

  lemma {:induction false} StepKeepsAccess(db: Db, r: Request)
    requires Sound(db) && Accepts(db, r)
    ensures AccessAtHome(Next(db, r))
  {
    match r
    case UpdateAccess(_, _, _, _, _) => UpdateKeepsAccess(db, r);
    case AcceptInvite(i, user, existing, m) =>
      if existing.Some? {
        ApplyKeepsAccess(db, i, existing.value);
      } else {
        AcceptKeepsAccess(db, i, user, m);
      }
    case _ => OtherStepsKeepAccess(db, r);
  }

  lemma {:induction false} StepKeepsOffers(db: Db, r: Request)
    requires Sound(db) && Accepts(db, r)
    ensures OffersAtHome(Next(db, r))
  {
    match r
    case CreateInvite(i, org, role, allRead, allWrite, entries) => EntryGrantsBoards(entries);
    case _ =>
  }

  function After(db: Db, requests: seq<Request>): Db
    decreases |requests|
  {
    if requests == [] then db else Next(After(db, requests[..|requests| - 1]), requests[|requests| - 1])
  }

  lemma {:induction false} RunKeepsSound(db: Db, requests: seq<Request>)
    requires Sound(db)
    ensures Sound(After(db, requests))
    decreases |requests|
  {
    if requests != [] {
      var before, r := After(db, requests[..|requests| - 1]), requests[|requests| - 1];
      RunKeepsSound(db, requests[..|requests| - 1]);
      if Accepts(before, r) {
        StepKeepsAccess(before, r);
        StepKeepsOffers(before, r);
      }
    }
  }

  const EMPTY := Db(map[], map[], map[], map[], map[])

  /** Main result: after any requests, the three forms of the access check agree for every member and both modes. */
  lemma {:induction false} FormsAlwaysAgree(requests: seq<Request>, member: Id, write: bool)
    requires member in After(EMPTY, requests).members
    ensures FormsAgree(After(EMPTY, requests), member, write)
  {
    var db := After(EMPTY, requests);
    RunKeepsSound(EMPTY, requests);
    FormsAgreeExactly(db, member, write);
    forall b | b in GrantedBoards(db, member, write) ensures b in db.boards && db.boards[b] == db.members[member].org {
      GrantedExactly(db, member, b, write);
    }
  }

  // ---------------------------------------------------------------------------
  // What accepting an invite grants
  // ---------------------------------------------------------------------------

  lemma {:induction false} GrantsOfExactly(rows: map<Row, Grant>, owner: Id, board: Id)
    ensures board in GrantsOf(rows, owner) <==> Row(owner, board) in rows
    ensures Row(owner, board) in rows ==> GrantsOf(rows, owner)[board] == rows[Row(owner, board)]
  {
    if Row(owner, board) in rows {
      var boards := set r | r in rows && r.owner == owner :: r.board;
      assert Row(owner, board).board in boards;
    }
  }

  /** A member who applies an invite has afterwards what they had and what the invite grants, and the higher role. */
  lemma {:induction false} ApplyingInviteIsUnion(db: Db, invite: Id, member: Id, board: Id, write: bool)
    requires Sound(db) && invite in db.invites && MemberOf(db, member, db.invites[invite].org) && board in db.boards
    ensures var after := AppliedTo(db, invite, member);
      && (HasBoardAccess(after, member, board, write) <==>
            HasBoardAccess(db, member, board, write) || InviteGrants(db, invite, board, write))
      && after.members[member].role ==
           (if db.invites[invite].role == "owner" then "owner"
            else if db.invites[invite].role == "admin" && db.members[member].role != "owner" then "admin"
            else db.members[member].role)
  {
    GrantsOfExactly(db.offers, invite, board);
  }

  /** Nobody else's access changes. */
  lemma {:induction false} ApplyingInviteIsLocal(db: Db, invite: Id, member: Id, other: Id, board: Id, write: bool)
    requires invite in db.invites && member in db.members
    requires other in db.members && other != member && board in db.boards
    ensures var after := AppliedTo(db, invite, member);
      HasBoardAccess(after, other, board, write) == HasBoardAccess(db, other, board, write)
  {
    var after := AppliedTo(db, invite, member);
    var r := Row(other, board);
    assert r in after.access <==> r in db.access;
  }

  /** A new member has exactly what the invite granted. */
  lemma {:induction false} AcceptingInviteGrantsIt(db: Db, invite: Id, user: Id, member: Id, board: Id, write: bool)
    requires Sound(db) && invite in db.invites && member !in db.members && board in db.boards
    ensures var after := AcceptedBy(db, invite, user, member);
      HasBoardAccess(after, member, board, write) <==> InviteGrants(db, invite, board, write)
  {
    GrantsOfExactly(db.offers, invite, board);
    assert Row(member, board) !in db.access;
  }

  /** What an access update asks for. */
  ghost predicate Asked(allRead: bool, allWrite: bool, entries: seq<Entry>, board: Id, write: bool) {
    || (if write then allWrite else allRead || allWrite)
    || (Scoped(allRead, allWrite) && exists e :: e in entries && e.board == board && Allows(e.grant, write))
  }

  /** An access update leaves exactly what it names. */
  lemma {:induction false} UpdateIsExact(
    db: Db, member: Id, org: Id, allRead: bool, allWrite: bool, entries: seq<Entry>, board: Id, write: bool)
    requires Accepts(db, UpdateAccess(member, org, allRead, allWrite, entries)) && board in db.boards
    ensures HasBoardAccess(UpdatedAccess(db, member, allRead, allWrite, entries), member, board, write) <==>
      db.boards[board] == org && Asked(allRead, allWrite, entries, board, write)
  {
    if Scoped(allRead, allWrite) {
      EntryGrantsExactly(entries, board);
    }
  }

  lemma {:induction false} EntryGrantsExactly(entries: seq<Entry>, board: Id)
    requires Distinct(entries)
    ensures forall e | e in entries :: e.board in EntryGrants(entries) && EntryGrants(entries)[e.board] == e.grant
    ensures board in EntryGrants(entries) ==> Entry(board, EntryGrants(entries)[board]) in entries
    decreases |entries|
  {
    if entries != [] {
      var front, last := entries[..|entries| - 1], entries[|entries| - 1];
      EntryGrantsExactly(front, board);
      assert entries == front + [last];
      assert EntryGrants(entries) == EntryGrants(front)[last.board := last.grant];
      LastIsNew(front, last);
    }
  }

  lemma {:induction false} LastIsNew(front: seq<Entry>, last: Entry)
    requires Distinct(front + [last])
    ensures forall e | e in front :: e.board != last.board
  {
    forall e | e in front ensures e.board != last.board {
      var k :| 0 <= k < |front| && front[k] == e;
      assert (front + [last])[k].board != (front + [last])[|front|].board;
    }
  }

  // ---------------------------------------------------------------------------
  // Which requests are refused, and what an accepted one leaves alone
  // ---------------------------------------------------------------------------

  /** The boards of an access list are all of the organization, and none is named twice where rows are stored. */
  ghost predicate Fits(db: Db, org: Id, allRead: bool, allWrite: bool, entries: seq<Entry>) {
    && (forall e | e in entries :: e.board in db.boards && db.boards[e.board] == org)
    && (allRead || allWrite || forall i, j :: 0 <= i < j < |entries| ==> entries[i].board != entries[j].board)
  }

  lemma {:induction false} AccessListsAccepted(
    db: Db, target: Id, org: Id, role: string, allRead: bool, allWrite: bool, entries: seq<Entry>)
    ensures Accepts(db, UpdateAccess(target, org, allRead, allWrite, entries)) <==>
      target in db.members && db.members[target].org == org && Fits(db, org, allRead, allWrite, entries)
    ensures Accepts(db, CreateInvite(target, org, role, allRead, allWrite, entries)) <==>
      target !in db.invites && Fits(db, org, allRead, allWrite, entries)
  {
    assert forall e | e in entries :: e.board in Boards(entries);
  }

  /** Removing a member: nobody removes themselves, and an owner only owners; so the refusal for the last owner, which
      the code also has, is never reached. */
  lemma {:induction false} RemovalAccepted(db: Db, member: Id, caller: Id, org: Id)
    ensures Accepts(db, RemoveMember(member, caller, org)) <==>
      && member in db.members && db.members[member].org == org
      && caller in db.members && db.members[caller].org == org
      && db.members[member].user != db.members[caller].user
      && (db.members[member].role == "owner" ==> db.members[caller].role == "owner")
  {
    if MemberOf(db, member, org) && MemberOf(db, caller, org) && member != caller {
      if db.members[member].role == "owner" && db.members[caller].role == "owner" {
        assert {member, caller} <= Owners(db, org);
        TwoAreInside(member, caller, Owners(db, org));
      }
    }
  }

  lemma {:induction false} TwoAreInside(a: Id, b: Id, all: set<Id>)
    requires a != b && {a, b} <= all
    ensures |all| > 1
  {
    assert |all - {a, b}| == |all| - 2;
  }

  lemma {:induction false} RevocationAccepted(db: Db, invite: Id, org: Id, other: Id)
    ensures Accepts(db, RevokeInvite(invite, org)) <==> invite in db.invites && db.invites[invite].org == org
    ensures Accepts(db, RevokeInvite(invite, org)) ==>
      var after := Next(db, RevokeInvite(invite, org));
      && (other in after.invites <==> other in db.invites && other != invite)
      && (other in after.invites ==> after.invites[other] == db.invites[other])
  {
  }

  /** Some member of the organization is an owner. */
  ghost predicate HasOwner(db: Db, org: Id) {
    exists m | m in db.members :: db.members[m].org == org && db.members[m].role == "owner"
  }

  /** The request makes the only owner of the organization something else. */
  ghost predicate DemotesLastOwner(db: Db, r: Request, org: Id) {
    && r.UpdateRole? && r.org == org && r.role != "owner"
    && forall m | m in db.members && db.members[m].org == org && db.members[m].role == "owner" :: m == r.member
  }

  lemma {:induction false} OwnerStays(db: Db, r: Request, org: Id, owner: Id)
    requires Accepts(db, r) && !r.UpdateRole? && !(r.RemoveMember? && r.member == owner)
    requires owner in db.members && db.members[owner].org == org && db.members[owner].role == "owner"
    ensures HasOwner(Next(db, r), org)
  {
    var after := Next(db, r);
    assert owner in after.members && after.members[owner].org == org && after.members[owner].role == "owner";
  }

  lemma {:induction false} RoleUpdateAndOwners(db: Db, r: Request, org: Id, owner: Id)
    requires Accepts(db, r) && r.UpdateRole?
    requires owner in db.members && db.members[owner].org == org && db.members[owner].role == "owner"
    ensures HasOwner(Next(db, r), org) <==> !DemotesLastOwner(db, r, org)
  {
    var after := Next(db, r);
    if !DemotesLastOwner(db, r, org) {
      if r.role == "owner" || owner != r.member {
        assert after.members[owner].org == org && after.members[owner].role == "owner";
      } else {
        var other :|
          other in db.members && db.members[other].org == org && db.members[other].role == "owner" && other != owner;
        assert after.members[other] == db.members[other];
      }
    }
  }

  /** Main result: an organization that has an owner loses its last one exactly by a role update of that owner, which
      alone of the requests does not ask whether another is left. */
  lemma {:induction false} LastOwnerLostExactly(db: Db, r: Request, org: Id)
    requires Accepts(db, r) && HasOwner(db, org)
    ensures HasOwner(Next(db, r), org) <==> !DemotesLastOwner(db, r, org)
  {
    var owner :| owner in db.members && db.members[owner].org == org && db.members[owner].role == "owner";
    if r.UpdateRole? {
      RoleUpdateAndOwners(db, r, org, owner);
    } else if r.RemoveMember? && r.member == owner {
      RemovalAccepted(db, owner, r.caller, org);
      OwnerStays(db, r, org, r.caller);
    } else {
      OwnerStays(db, r, org, owner);
    }
  }

  /** Such a run: an organization is provisioned and its owner becomes a member. */
  lemma {:induction false} OwnerCanBeLost(member: Id, user: Id, org: Id)
    ensures var db := After(EMPTY, [Provision(member, user, org), UpdateRole(member, org, "member")]);
      member in db.members && db.members[member].org == org && !HasOwner(db, org)
  {
    var requests := [Provision(member, user, org), UpdateRole(member, org, "member")];
    assert requests[..1] == [requests[0]] && requests[..1][..0] == [];
    assert After(EMPTY, []) == EMPTY;
    var first := After(EMPTY, requests[..1]);
    assert first == Next(EMPTY, requests[0]);
    assert After(EMPTY, requests) == Next(first, requests[1]);
  }

  /** A provisioned member owns the organization and sees and writes all its boards. */
  lemma {:induction false} ProvisionedOwnsAll(db: Db, member: Id, user: Id, org: Id, board: Id, write: bool)
    requires member !in db.members && board in db.boards
    ensures var after := Next(db, Provision(member, user, org));
      && HasOwner(after, org) && after.members[member].user == user
      && (HasBoardAccess(after, member, board, write) <==> db.boards[board] == org)
      && after.members[member].allRead && after.members[member].allWrite
  {
    var after := Next(db, Provision(member, user, org));
    assert after.members[member].org == org && after.members[member].role == "owner";
  }

  /** The member whose access the request is about. */
  predicate Names(r: Request, member: Id) {
    match r
    case AcceptInvite(_, _, existing, _) => existing == Some(member)
    case UpdateAccess(m, _, _, _, _) => m == member
    case RemoveMember(m, _, _) => m == member
    case _ => false
  }

  /** Nobody else's access changes, on any board that stays, whatever is requested. */
  lemma {:induction false} RequestsAreLocal(db: Db, r: Request, member: Id, board: Id, write: bool)
    requires Accepts(db, r) && member in db.members && !Names(r, member)
    requires board in db.boards && r != DeleteBoard(board)
    ensures var after := Next(db, r);
      && member in after.members && after.members[member].org == db.members[member].org
      && board in after.boards
      && (HasBoardAccess(after, member, board, write) <==> HasBoardAccess(db, member, board, write))
  {
    var after := Next(db, r);
    assert Row(member, board) in after.access <==> Row(member, board) in db.access;
    if r.AcceptInvite? && r.existing.Some? {
      ApplyingInviteIsLocal(db, r.invite, r.existing.value, member, board, write);
    }
  }

  /** Nor does what other invites grant; and an accepted invite stays accepted. */
  lemma {:induction false} OtherInvitesStay(db: Db, r: Request, invite: Id, board: Id, write: bool)
    requires Accepts(db, r) && invite in db.invites && !(r.RevokeInvite? && r.invite == invite)
    requires board in db.boards && r != DeleteBoard(board)
    ensures var after := Next(db, r);
      && invite in after.invites && board in after.boards
      && (after.invites[invite].accepted <==>
            db.invites[invite].accepted || (r.AcceptInvite? && r.invite == invite))
      && (InviteGrants(after, invite, board, write) <==> InviteGrants(db, invite, board, write))
  {
    var after := Next(db, r);
    assert Row(invite, board) in after.offers <==> Row(invite, board) in db.offers;
  }

  ghost predicate NeverRevokes(requests: seq<Request>, invite: Id) {
    forall r | r in requests && r.RevokeInvite? :: r.invite != invite
  }

  predicate IsAccepted(db: Db, invite: Id) { invite in db.invites && db.invites[invite].accepted }

  lemma {:induction false} StepKeepsAccepted(db: Db, r: Request, invite: Id)
    requires IsAccepted(db, invite) && !(r.RevokeInvite? && r.invite == invite)
    ensures IsAccepted(Next(db, r), invite)
  {
  }

  lemma {:induction false} StaysAccepted(db: Db, requests: seq<Request>, invite: Id)
    requires IsAccepted(db, invite) && NeverRevokes(requests, invite)
    ensures IsAccepted(After(db, requests), invite)
    decreases |requests|
  {
    hide Next, IsAccepted;
    if requests != [] {
      StaysAccepted(db, requests[..|requests| - 1], invite);
      StepKeepsAccepted(After(db, requests[..|requests| - 1]), requests[|requests| - 1], invite);
    }
  }

  /** Main result: over any requests that do not revoke it, an accepted invite is never accepted again. */
  lemma {:induction false} InviteIsUsedOnce(db: Db, first: Request, requests: seq<Request>, again: Request)
    requires first.AcceptInvite? && Accepts(db, first) && NeverRevokes(requests, first.invite)
    requires again.AcceptInvite? && again.invite == first.invite
    ensures !Accepts(After(Next(db, first), requests), again)
  {
    assert IsAccepted(Next(db, first), first.invite);
    StaysAccepted(Next(db, first), requests, first.invite);
  }
}
