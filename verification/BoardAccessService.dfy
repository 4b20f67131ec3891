/** The organization tables as an object, changed row by row: the functions of backend/app/services/organizations.py
    and the requests of backend/app/api/organizations.py that call them. */
module BoardAccessService {
  import opened Models
  import opened BoardAccess

  class OrganizationTables {
    var boards: map<Id, Id>
    var members: map<Id, Member>
    var access: map<Row, Grant>
    var invites: map<Id, Invite>
    var offers: map<Row, Grant>

    ghost function State(): Db
      reads this
    {
      Db(boards, members, access, invites, offers)
    }

    constructor ()
      ensures State() == EMPTY
    {
      boards, members, access, invites, offers := map[], map[], map[], map[], map[];
    }

    method HasAccess(member: Id, board: Id, write: bool) returns (allowed: bool)
      requires member in members && board in boards
      ensures allowed <==> HasBoardAccess(State(), member, board, write)
    {
      var m := members[member];
      if m.org != boards[board] {
        return false;
      }
      if write {
        if m.allWrite {
          return true;
        }
      } else if m.allRead || m.allWrite {
        return true;
      }
      if Row(member, board) !in access {
        return false;
      }
      var row := access[Row(member, board)];
      return if write then row.canWrite else row.canRead || row.canWrite;
    }

    /** The invite's rows, added for the new member one by one. */
    method CopyRows(grants: map<Id, Grant>, member: Id)
      requires forall b :: Row(member, b) !in access
      modifies this`access
      ensures access == Replaced(old(access), member, grants)
    {
      var left := grants.Keys;
      assert access == Replaced(access, member, Except(grants, left));
      while left != {}
        invariant left <= grants.Keys
        invariant access == Replaced(old(access), member, Except(grants, left))
        decreases |left|
      {
        var b :| b in left;
        ReplacedGrows(old(access), member, Except(grants, left), b, grants[b]);
        ExceptGrows(grants, left, b);
        access := access[Row(member, b) := grants[b]];
        left := left - {b};
      }
      ExceptNone(grants);
    }

    /** `accept_invite`. */
    method AcceptInvite(invite: Id, user: Id, member: Id)
      requires invite in invites && forall b :: Row(member, b) !in access
      modifies this
      ensures State() == AcceptedBy(old(State()), invite, user, member)
    {
      var i := invites[invite];
      members := members[member := Member(i.org, user, i.role, i.allRead, i.allWrite)];
      if !(i.allRead || i.allWrite) {
        CopyRows(GrantsOf(offers, invite), member);
        assert access == Replaced(old(access), member, GrantsOf(old(offers), invite));
      }
      invites := invites[invite := i.(accepted := true)];
    }

    /** The invite's rows, merged into those of the member one by one. */
    method MergeRows(grants: map<Id, Grant>, member: Id)
      modifies this`access
      ensures access == Widened(old(access), member, grants)
    {
      var left := grants.Keys;
      assert access == Widened(access, member, Except(grants, left));
      while left != {}
        invariant left <= grants.Keys
        invariant access == Widened(old(access), member, Except(grants, left))
        decreases |left|
      {
        var b :| b in left;
        WidenedGrows(old(access), member, Except(grants, left), b, grants[b]);
        ExceptGrows(grants, left, b);
        MergeRow(Row(member, b), grants[b]);
        left := left - {b};
      }
      ExceptNone(grants);
    }

    method MergeRow(key: Row, g: Grant)
      modifies this`access
      ensures access == old(access)[key := Merged(old(access), key, g)]
    {
      var canWrite, canRead := g.canWrite, g.canRead || g.canWrite;
      if key !in access {
        access := access[key := Grant(canRead, canWrite)];
      } else {
        access := access[key := Grant(access[key].canRead || canRead, access[key].canWrite || canWrite)];
      }
    }

    /** `apply_invite_to_member`. */
    method ApplyInviteToMember(invite: Id, member: Id)
      requires invite in invites && member in members
      modifies this
      ensures State() == AppliedTo(old(State()), invite, member)
    {
      var i, m := invites[invite], members[member];
      if RoleRank(i.role) > RoleRank(m.role) {
        m := m.(role := i.role);
      }
      if i.allRead || i.allWrite {
        m := m.(allRead := m.allRead || i.allRead || i.allWrite, allWrite := m.allWrite || i.allWrite);
      } else {
        MergeRows(GrantsOf(offers, invite), member);
      }
      members := members[member := m];
    }

    /** The rows of a request, one by one. */
    method AddRows(rows: map<Row, Grant>, owner: Id, entries: seq<Entry>) returns (result: map<Row, Grant>)
      requires forall b :: Row(owner, b) !in rows
      ensures result == Replaced(rows, owner, EntryGrants(entries))
    {
      result := rows;
      assert EntryGrants(entries[..0]) == map[];
      assert rows == Replaced(rows, owner, map[]);
      for i := 0 to |entries|
        invariant result == Replaced(rows, owner, EntryGrants(entries[..i]))
      {
        ReplacedGrows(rows, owner, EntryGrants(entries[..i]), entries[i].board, entries[i].grant);
        assert entries[..i + 1][..i] == entries[..i] && entries[..i + 1][i] == entries[i];
        result := result[Row(owner, entries[i].board) := entries[i].grant];
      }
      assert entries[..|entries|] == entries;
    }

    /** `apply_member_access_update`. */
    method ApplyMemberAccessUpdate(member: Id, allRead: bool, allWrite: bool, entries: seq<Entry>)
      requires member in members
      modifies this
      ensures State() == UpdatedAccess(old(State()), member, allRead, allWrite, entries)
    {
      members := members[member := members[member].(allRead := allRead, allWrite := allWrite)];
      access := WithoutOwner(access, member);
      ReplacedAfterRemoval(old(access), member, if Scoped(allRead, allWrite) then EntryGrants(entries) else map[]);
      if allRead || allWrite {
        assert access == Replaced(access, member, map[]);
        return;
      }
      access := AddRows(access, member, entries);
    }

    /** `apply_invite_board_access`. */
    method ApplyInviteBoardAccess(invite: Id, entries: seq<Entry>)
      requires invite in invites
      modifies this
      ensures var i := old(invites)[invite];
        State() == old(State()).(
          offers := Replaced(old(offers), invite,
            if Scoped(i.allRead, i.allWrite) then EntryGrants(entries) else map[]))
    {
      var i := invites[invite];
      offers := WithoutOwner(offers, invite);
      ReplacedAfterRemoval(old(offers), invite, if Scoped(i.allRead, i.allWrite) then EntryGrants(entries) else map[]);
      if i.allRead || i.allWrite {
        assert offers == Replaced(offers, invite, map[]);
        return;
      }
      offers := AddRows(offers, invite, entries);
    }

    /** `update_member_access`; storing two rows for one board violates the key and undoes the request. */
    method UpdateMemberAccess(member: Id, org: Id, allRead: bool, allWrite: bool, entries: seq<Entry>)
      returns (ok: bool)
      modifies this
      ensures ok <==> Accepts(old(State()), UpdateAccess(member, org, allRead, allWrite, entries))
      ensures State() == Next(old(State()), UpdateAccess(member, org, allRead, allWrite, entries))
    {
      if member !in members || members[member].org != org {
        return false;
      }
      var valid := Boards(entries) <= (set b | b in boards && boards[b] == org);
      if !valid || (!(allRead || allWrite) && !Distinct(entries)) {
        return false;
      }
      ApplyMemberAccessUpdate(member, allRead, allWrite, entries);
      return true;
    }

    /** `create_org_invite`. */
    method CreateOrgInvite(invite: Id, org: Id, role: string, allRead: bool, allWrite: bool, entries: seq<Entry>)
      returns (ok: bool)
      modifies this
      ensures ok <==> Accepts(old(State()), CreateInvite(invite, org, role, allRead, allWrite, entries))
      ensures State() == Next(old(State()), CreateInvite(invite, org, role, allRead, allWrite, entries))
    {
      var valid := Boards(entries) <= (set b | b in boards && boards[b] == org);
      if invite in invites || !valid || (!(allRead || allWrite) && !Distinct(entries)) {
        return false;
      }
      invites := invites[invite := Invite(org, role, allRead, allWrite, false)];
      ApplyInviteBoardAccess(invite, entries);
      return true;
    }

    /** `accept_org_invite`, for a user whose membership in the organization has been looked up. */
    method AcceptOrgInvite(invite: Id, user: Id, existing: Option<Id>, member: Id) returns (ok: bool)
      requires Sound(State())
      modifies this
      ensures ok <==> Accepts(old(State()), Request.AcceptInvite(invite, user, existing, member))
      ensures State() == Next(old(State()), Request.AcceptInvite(invite, user, existing, member))
    {
      if invite !in invites || invites[invite].accepted || member in members {
        return false;
      }
      if existing.Some? {
        if existing.value !in members || members[existing.value].org != invites[invite].org
          || members[existing.value].user != user {
          return false;
        }
        ApplyInviteToMember(invite, existing.value);
        invites := invites[invite := invites[invite].(accepted := true)];
      } else {
        AcceptInvite(invite, user, member);
      }
      return true;
    }
  }

  lemma {:induction false} ReplacedGrows(rows: map<Row, Grant>, owner: Id, grants: map<Id, Grant>,
    board: Id, grant: Grant)
    ensures Replaced(rows, owner, grants[board := grant]) == Replaced(rows, owner, grants)[Row(owner, board) := grant]
  {
  }

  lemma {:induction false} ReplacedAfterRemoval(rows: map<Row, Grant>, owner: Id, grants: map<Id, Grant>)
    ensures Replaced(WithoutOwner(rows, owner), owner, grants) == Replaced(rows, owner, grants)
    ensures forall b :: Row(owner, b) !in WithoutOwner(rows, owner)
  {
  }

  /** The grants for the other boards. */
  function Except(grants: map<Id, Grant>, boards: set<Id>): map<Id, Grant> {
    map b | b in grants && b !in boards :: grants[b]
  }

  lemma {:induction false} ExceptGrows(grants: map<Id, Grant>, left: set<Id>, b: Id)
    requires b in left && b in grants
    ensures Except(grants, left - {b}) == Except(grants, left)[b := grants[b]]
  {
  }

  lemma {:induction false} ExceptNone(grants: map<Id, Grant>)
    ensures Except(grants, {}) == grants
  {
  }

  function RowAt(rows: map<Row, Grant>, r: Row): Option<Grant> {
    if r in rows then Some(rows[r]) else None
  }

  lemma {:induction false} WidenedAt(rows: map<Row, Grant>, owner: Id, grants: map<Id, Grant>, r: Row)
    ensures RowAt(Widened(rows, owner, grants), r) ==
      if r.owner == owner && r.board in grants then Some(Merged(rows, r, grants[r.board])) else RowAt(rows, r)
  {
  }

  lemma {:induction false} SameRows(rows1: map<Row, Grant>, rows2: map<Row, Grant>)
    requires forall r :: RowAt(rows1, r) == RowAt(rows2, r)
    ensures rows1 == rows2
  {
    forall r | r in rows1 ensures r in rows2 && rows1[r] == rows2[r] {
      assert RowAt(rows1, r) == RowAt(rows2, r);
    }
    forall r | r in rows2 ensures r in rows1 {
      assert RowAt(rows1, r) == RowAt(rows2, r);
    }
  }

  lemma {:induction false} WidenedGrows(rows: map<Row, Grant>, owner: Id, grants: map<Id, Grant>,
    board: Id, grant: Grant)
    requires board !in grants
    ensures var before, r := Widened(rows, owner, grants), Row(owner, board);
      Widened(rows, owner, grants[board := grant]) == before[r := Merged(before, r, grant)]
  {
    var before, r := Widened(rows, owner, grants), Row(owner, board);
    var after, expected := Widened(rows, owner, grants[board := grant]), before[r := Merged(before, r, grant)];
    WidenedAt(rows, owner, grants, r);
    forall k ensures RowAt(after, k) == RowAt(expected, k) {
      WidenedAt(rows, owner, grants, k);
      WidenedAt(rows, owner, grants[board := grant], k);
    }
    SameRows(after, expected);
  }
}
