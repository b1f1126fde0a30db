/** The team tables: teams, membership rows and invitations. A membership row
    is identified by its (team id, user id) pair, so a user has at most one
    row, and one role, per team. Every membership row and every invitation
    belongs to a stored team. */
module TeamRepo {
  import opened Base
  import opened Ordering
  import opened TeamDto

  datatype Team = Team(id: string, name: string, description: Option<string>, creatorId: string, createdAt: int)

  function TeamKey(t: Team): string { t.id }

  /** A team as the repository returns it, with its members and their roles. */
  datatype TeamView = TeamView(team: Team, members: map<string, Role>)

  datatype InvitationStatus = Pending | Accepted | Rejected

  /** The two answers an invitation can receive. */
  datatype Answer = Accept | Reject

  function AnswerStatus(a: Answer): InvitationStatus {
    if a == Accept then Accepted else Rejected
  }

  datatype Invitation = Invitation(
    id: string, teamId: string, userId: string, invitedBy: string,
    message: Option<string>, status: InvitationStatus, createdAt: int)

  function InvitationKey(i: Invitation): string { i.id }

  /** The row a new membership is stored as. */
  datatype MemberRow = MemberRow(teamId: string, userId: string, role: Role)

  predicate Distinct(ids: seq<string>) {
    forall i, j :: 0 <= i < j < |ids| ==> ids[i] != ids[j]
  }

  /** The member loop of `create`: each id is inserted in list order with role
      "member"; the first insert whose row already exists fails, and the rows
      inserted before it stay. The flag says whether every insert succeeded. */
  function InsertEach(rows: map<(string, string), Role>, teamId: string, ids: seq<string>)
    : (r: (map<(string, string), Role>, bool))
    ensures forall k :: k in rows ==> k in r.0 && r.0[k] == rows[k]
    ensures forall k :: k in r.0 && k !in rows ==> k.0 == teamId && k.1 in ids && r.0[k] == Member
    ensures r.1 ==> forall i :: 0 <= i < |ids| ==> (teamId, ids[i]) in r.0
    ensures r.1 <==> Distinct(ids) && forall i :: 0 <= i < |ids| ==> (teamId, ids[i]) !in rows
    decreases |ids|
  {
    if ids == [] then (rows, true)
    else if (teamId, ids[0]) in rows then
      assert (teamId, ids[0]) in rows;
      (rows, false)
    else
      var rows' := rows[(teamId, ids[0]) := Member];
      var r := InsertEach(rows', teamId, ids[1..]);
      assert r.1 <==> Distinct(ids) && forall i :: 0 <= i < |ids| ==> (teamId, ids[i]) !in rows by {
        if Distinct(ids) && forall i :: 0 <= i < |ids| ==> (teamId, ids[i]) !in rows {
          assert Distinct(ids[1..]);
          forall i | 0 <= i < |ids[1..]| ensures (teamId, ids[1..][i]) !in rows' {
            assert ids[1..][i] == ids[i + 1];
          }
        }
        if r.1 {
          forall i, j | 0 <= i < j < |ids| ensures ids[i] != ids[j] {
            assert ids[j] == ids[1..][j - 1];
            if i > 0 { assert ids[i] == ids[1..][i - 1]; }
          }
          forall i | 0 <= i < |ids| ensures (teamId, ids[i]) !in rows {
            if i > 0 { assert ids[i] == ids[1..][i - 1]; }
          }
        }
      }
      assert r.1 ==> forall i :: 0 <= i < |ids| ==> (teamId, ids[i]) in r.0 by {
        if r.1 {
          forall i | 0 <= i < |ids| ensures (teamId, ids[i]) in r.0 {
            if i > 0 { assert ids[i] == ids[1..][i - 1]; }
          }
        }
      }
      r
  }

  /** One turn of the member loop, seen from position `i` of the list. */
  lemma LoopStep(rows: map<(string, string), Role>, teamId: string, ids: seq<string>, i: nat)
    requires i < |ids|
    ensures InsertEach(rows, teamId, ids[i..]) ==
      if (teamId, ids[i]) in rows then (rows, false)
      else InsertEach(rows[(teamId, ids[i]) := Member], teamId, ids[i + 1..])
  {
    assert ids[i..][0] == ids[i];
    assert ids[i..][1..] == ids[i + 1..];
  }

  /** A list whose first clash is at position `j`, a row that already exists
      or a repeated id, makes the loop fail after inserting exactly the ids
      before `j`: the rows inserted before the clash stay and nothing after it
      is inserted. */
  lemma {:induction false} FailureKeepsPrefix(rows: map<(string, string), Role>, teamId: string,
                                              ids: seq<string>, j: nat)
    requires j < |ids| && Distinct(ids[..j])
    requires forall i :: 0 <= i < j ==> (teamId, ids[i]) !in rows
    requires (teamId, ids[j]) in rows || ids[j] in ids[..j]
    ensures !InsertEach(rows, teamId, ids).1
    ensures forall k :: k in InsertEach(rows, teamId, ids).0 <==>
      k in rows || exists i :: 0 <= i < j && k == (teamId, ids[i])
    decreases j
  {
    if j == 0 {
      assert (teamId, ids[0]) in rows;
    } else {
      assert (teamId, ids[0]) !in rows;
      var rows' := rows[(teamId, ids[0]) := Member];
      var tail := ids[1..];
      assert tail[..j - 1] == ids[1..j];
      assert Distinct(tail[..j - 1]) by {
        forall a, b | 0 <= a < b < j - 1 ensures tail[a] != tail[b] {
          assert tail[a] == ids[..j][a + 1] && tail[b] == ids[..j][b + 1];
        }
      }
      forall i | 0 <= i < j - 1 ensures (teamId, tail[i]) !in rows' {
        assert tail[i] == ids[i + 1];
        assert ids[..j][0] != ids[..j][i + 1];
      }
      assert (teamId, tail[j - 1]) in rows' || tail[j - 1] in tail[..j - 1] by {
        if (teamId, ids[j]) !in rows {
          var m :| 0 <= m < j && ids[..j][m] == ids[j];
          if m > 0 {
            assert tail[..j - 1][m - 1] == ids[j];
          }
        }
      }
      FailureKeepsPrefix(rows', teamId, tail, j - 1);
      assert InsertEach(rows, teamId, ids) == InsertEach(rows', teamId, tail);
      forall k ensures k in InsertEach(rows, teamId, ids).0 <==>
        k in rows || exists i :: 0 <= i < j && k == (teamId, ids[i])
      {
        if exists i :: 0 <= i < j - 1 && k == (teamId, tail[i]) {
          var i :| 0 <= i < j - 1 && k == (teamId, tail[i]);
          assert k == (teamId, ids[i + 1]);
        }
        if exists i :: 0 <= i < j && k == (teamId, ids[i]) {
          var i :| 0 <= i < j && k == (teamId, ids[i]);
          if i > 0 {
            assert k == (teamId, tail[i - 1]);
          }
        }
      }
    }
  }

  /** The rows of one team, as a map from member to role. */
  function Roster(rows: map<(string, string), Role>, teamId: string): (m: map<string, Role>)
    ensures forall u :: u in m <==> (teamId, u) in rows
    ensures forall u :: u in m ==> m[u] == rows[(teamId, u)]
  {
    map k | k in rows && k.0 == teamId :: k.1 := rows[k]
  }

  /** A team without rows, given its creator's admin row, has the creator as
      its only member. */
  lemma FreshRoster(rows: map<(string, string), Role>, teamId: string, creatorId: string)
    requires forall k :: k in rows ==> k.0 != teamId
    ensures Roster(rows[(teamId, creatorId) := Admin], teamId) == map[creatorId := Admin]
  {
    var got := Roster(rows[(teamId, creatorId) := Admin], teamId);
    assert got.Keys == {creatorId};
  }

  /** The `where` of `findAll(userId)`: teams with a membership row for the
      user; an absent or empty user id selects every team. */
  function MemberOfFilter(rows: map<(string, string), Role>, userId: Option<string>): Team -> bool {
    (t: Team) => !Supplied(userId) || (t.id, userId.value) in rows
  }

  function TeamCreatedAt(t: Team): Key { Num(t.createdAt) }

  /** The `where` of `getUserInvitations`: the user's pending invitations. */
  function PendingFor(userId: string): Invitation -> bool {
    (i: Invitation) => i.userId == userId && i.status == Pending
  }

  function InvitationCreatedAt(i: Invitation): Key { Num(i.createdAt) }

  class TeamRepository {
    var teams: map<string, Team>
    var members: map<(string, string), Role>
    var invitations: map<string, Invitation>

    ghost predicate Valid()
      reads this
    {
      && WellKeyed(teams, TeamKey)
      && WellKeyed(invitations, InvitationKey)
      && (forall k :: k in members ==> k.0 in teams)
      && (forall id :: id in invitations ==> invitations[id].teamId in teams)
    }

    constructor()
      ensures Valid() && teams == map[] && members == map[] && invitations == map[]
    {
      teams := map[];
      members := map[];
      invitations := map[];
    }

    /** `isMember`: a membership row exists for the pair. */
    function IsMember(teamId: string, userId: string): (b: bool)
      reads this
      ensures b <==> userId in Roster(members, teamId)
    {
      (teamId, userId) in members
    }

    /** `isAdmin`: a membership row exists for the pair and its role is admin. */
    function IsAdmin(teamId: string, userId: string): (b: bool)
      reads this
      ensures b ==> IsMember(teamId, userId)
      ensures b <==> userId in Roster(members, teamId) && Roster(members, teamId)[userId] == Admin
    {
      (teamId, userId) in members && members[(teamId, userId)] == Admin
    }

    /** `findById`: the team with its current members. */
    function FindById(id: string): (r: Option<TeamView>)
      reads this
      requires Valid()
      ensures r.Some? <==> id in teams
      ensures r.Some? ==> r.value.team == teams[id] && r.value.team.id == id
      ensures r.Some? ==> forall u :: u in r.value.members <==> IsMember(id, u)
    {
      if id in teams then Some(TeamView(teams[id], Roster(members, id))) else None
    }

    /** `create`: stores the team with its creator as its one admin, then
        inserts each listed member, one at a time, as "member". The team
        returned is the one read back before the loop. A member insert that
        hits an existing row fails the call but keeps the team and the rows
        inserted before it. */
    method Create(id: string, data: CreateTeamDto, creatorId: string, now: int) returns (r: Result<TeamView>)
      requires Valid()
      modifies this
      ensures Valid()
      ensures invitations == old(invitations)
      ensures id in old(teams) ==> r == Err(UniqueViolation) && teams == old(teams) && members == old(members)
      ensures id !in old(teams) ==>
        var team := Team(id, data.name, data.description, creatorId, now);
        var loop := InsertEach(old(members)[(id, creatorId) := Admin], id, data.memberIds.GetOr([]));
        && teams == old(teams)[id := team]
        && members == loop.0
        && (loop.1 ==> r == Ok(TeamView(team, map[creatorId := Admin])))
        && (!loop.1 ==> r == Err(UniqueViolation))
    {
      if id in teams {
        return Err(UniqueViolation);
      }
      var team := Team(id, data.name, data.description, creatorId, now);
      teams := teams[id := team];
      members := members[(id, creatorId) := Admin];
      FreshRoster(old(members), id, creatorId);
      var snapshot := TeamView(team, Roster(members, id));
      var ids := data.memberIds.GetOr([]);
      ghost var start := members;
      var i := 0;
      while i < |ids|
        invariant 0 <= i <= |ids|
        invariant InsertEach(members, id, ids[i..]) == InsertEach(start, id, ids)
        invariant Valid()
        invariant teams == old(teams)[id := team] && invitations == old(invitations)
      {
        LoopStep(members, id, ids, i);
        if (id, ids[i]) in members {
          return Err(UniqueViolation);
        }
        members := members[(id, ids[i]) := Member];
        i := i + 1;
      }
      assert ids[i..] == [];
      r := Ok(snapshot);
    }

    /** `findAll(userId)`: the teams the user belongs to, or all teams when
        no user is given, newest first. */
    method FindAll(userId: Option<string>) returns (r: seq<Team>)
      requires Valid()
      ensures Enumerates(r, teams, TeamKey, MemberOfFilter(members, userId))
      ensures SortedBy(r, TeamCreatedAt, Desc)
    {
      r := SelectSorted(teams, TeamKey, MemberOfFilter(members, userId), TeamCreatedAt, Desc);
    }

    /** `update`: sets the supplied name and description of one team. */
    method Update(id: string, data: UpdateTeamDto) returns (r: Result<TeamView>)
      requires Valid()
      modifies this
      ensures Valid()
      ensures members == old(members) && invitations == old(invitations)
      ensures id !in old(teams) ==> r == Err(RecordNotFound) && teams == old(teams)
      ensures id in old(teams) ==>
        var t := old(teams)[id];
        var t' := t.(name := data.name.GetOr(t.name),
                     description := if data.description.Some? then data.description else t.description);
        && teams == old(teams)[id := t']
        && r == Ok(TeamView(t', Roster(members, id)))
    {
      if id !in teams {
        return Err(RecordNotFound);
      }
      var t := teams[id];
      var t' := t.(name := data.name.GetOr(t.name),
                   description := if data.description.Some? then data.description else t.description);
      teams := teams[id := t'];
      r := Ok(TeamView(t', Roster(members, id)));
    }

    /** `delete`: removes the team; its membership rows and invitations go
        with it. */
    method Delete(id: string) returns (r: Result<Team>)
      requires Valid()
      modifies this
      ensures Valid()
      ensures id !in old(teams) ==>
        r == Err(RecordNotFound) && teams == old(teams) && members == old(members) && invitations == old(invitations)
      ensures id in old(teams) ==>
        && r == Ok(old(teams)[id])
        && teams == old(teams) - {id}
        && members == (map k | k in old(members) && k.0 != id :: old(members)[k])
        && invitations == (map k | k in old(invitations) && old(invitations)[k].teamId != id :: old(invitations)[k])
    {
      if id !in teams {
        return Err(RecordNotFound);
      }
      r := Ok(teams[id]);
      teams := teams - {id};
      members := map k | k in members && k.0 != id :: members[k];
      invitations := map k | k in invitations && invitations[k].teamId != id :: invitations[k];
    }

    /** `addMember`: inserts one membership row; an existing row for the pair
        is a unique-key error and a missing team a foreign-key error. */
    method AddMember(teamId: string, userId: string, role: Role) returns (r: Result<MemberRow>)
      requires Valid()
      modifies this
      ensures Valid()
      ensures teams == old(teams) && invitations == old(invitations)
      ensures teamId !in teams ==> r == Err(ForeignKeyViolation) && members == old(members)
      ensures teamId in teams && (teamId, userId) in old(members) ==>
        r == Err(UniqueViolation) && members == old(members)
      ensures teamId in teams && (teamId, userId) !in old(members) ==>
        r == Ok(MemberRow(teamId, userId, role)) && members == old(members)[(teamId, userId) := role]
    {
      if teamId !in teams {
        return Err(ForeignKeyViolation);
      }
      if (teamId, userId) in members {
        return Err(UniqueViolation);
      }
      members := members[(teamId, userId) := role];
      r := Ok(MemberRow(teamId, userId, role));
    }

    /** `removeMember`: deletes the matching rows, if any; no row is not an
        error. The count of deleted rows is returned. */
    method RemoveMember(teamId: string, userId: string) returns (count: nat)
      requires Valid()
      modifies this
      ensures Valid()
      ensures teams == old(teams) && invitations == old(invitations)
      ensures members == old(members) - {(teamId, userId)}
      ensures count == if (teamId, userId) in old(members) then 1 else 0
    {
      count := if (teamId, userId) in members then 1 else 0;
      members := members - {(teamId, userId)};
    }

    /** `createInvitation`: a new pending invitation to a stored team. */
    method CreateInvitation(id: string, teamId: string, userId: string, invitedBy: string,
                            message: Option<string>, now: int) returns (r: Result<Invitation>)
      requires Valid()
      modifies this
      ensures Valid()
      ensures teams == old(teams) && members == old(members)
      ensures id in old(invitations) ==> r == Err(UniqueViolation) && invitations == old(invitations)
      ensures id !in old(invitations) && teamId !in teams ==>
        r == Err(ForeignKeyViolation) && invitations == old(invitations)
      ensures id !in old(invitations) && teamId in teams ==>
        && r == Ok(Invitation(id, teamId, userId, invitedBy, message, Pending, now))
        && invitations == old(invitations)[id := r.value]
    {
      if id in invitations {
        return Err(UniqueViolation);
      }
      if teamId !in teams {
        return Err(ForeignKeyViolation);
      }
      var inv := Invitation(id, teamId, userId, invitedBy, message, Pending, now);
      invitations := invitations[id := inv];
      r := Ok(inv);
    }

    /** `getInvitation`: the invitation stored under `id`. */
    function GetInvitation(id: string): (r: Option<Invitation>)
      reads this
      requires Valid()
      ensures r.Some? <==> id in invitations
      ensures r.Some? ==> r.value.id == id && r.value == invitations[id]
    {
      if id in invitations then Some(invitations[id]) else None
    }

    /** `getUserInvitations`: only the user's pending invitations, newest
        first. */
    method GetUserInvitations(userId: string) returns (r: seq<Invitation>)
      requires Valid()
      ensures Enumerates(r, invitations, InvitationKey, PendingFor(userId))
      ensures SortedBy(r, InvitationCreatedAt, Desc)
      ensures forall i :: 0 <= i < |r| ==> r[i].userId == userId && r[i].status == Pending
    {
      r := SelectSorted(invitations, InvitationKey, PendingFor(userId), InvitationCreatedAt, Desc);
    }

    /** `updateInvitationStatus`: sets the answer on one invitation. */
    method UpdateInvitationStatus(id: string, answer: Answer) returns (r: Result<Invitation>)
      requires Valid()
      modifies this
      ensures Valid()
      ensures teams == old(teams) && members == old(members)
      ensures id !in old(invitations) ==> r == Err(RecordNotFound) && invitations == old(invitations)
      ensures id in old(invitations) ==>
        && r == Ok(old(invitations)[id].(status := AnswerStatus(answer)))
        && invitations == old(invitations)[id := r.value]
    {
      if id !in invitations {
        return Err(RecordNotFound);
      }
      var inv := invitations[id].(status := AnswerStatus(answer));
      invitations := invitations[id := inv];
      r := Ok(inv);
    }
  }

  /** The member loop inserts only fresh rows: it never changes the role of
      a row that already exists, the creator's admin row included. */
  lemma {:induction false} InsertEachKeepsCreator(rows: map<(string, string), Role>, teamId: string, creatorId: string, ids: seq<string>)
    requires (teamId, creatorId) in rows && rows[(teamId, creatorId)] == Admin
    ensures var r := InsertEach(rows, teamId, ids);
      (teamId, creatorId) in r.0 && r.0[(teamId, creatorId)] == Admin
  {
  }

  /** A member list that names the creator, or one user twice, fails the
      loop; a list of distinct other users is inserted in full. */
  lemma {:induction false} MemberListOutcome(rows: map<(string, string), Role>, teamId: string, creatorId: string, ids: seq<string>)
    requires forall k :: k in rows ==> k.0 != teamId
    ensures creatorId in ids ==> !InsertEach(rows[(teamId, creatorId) := Admin], teamId, ids).1
    ensures !Distinct(ids) ==> !InsertEach(rows[(teamId, creatorId) := Admin], teamId, ids).1
    ensures Distinct(ids) && creatorId !in ids ==>
      var r := InsertEach(rows[(teamId, creatorId) := Admin], teamId, ids).0;
      Roster(r, teamId) == (map u | u in ids :: Member)[creatorId := Admin]
  {
    var start := rows[(teamId, creatorId) := Admin];
    if creatorId in ids {
      var i :| 0 <= i < |ids| && ids[i] == creatorId;
      assert (teamId, ids[i]) in start;
    }
    if Distinct(ids) && creatorId !in ids {
      FullListRoster(rows, teamId, creatorId, ids);
    }
  }

  /** A list of distinct users other than the creator is inserted in full:
      the new team's roster is those users as members and the creator as
      admin. */
  lemma {:induction false} FullListRoster(rows: map<(string, string), Role>, teamId: string, creatorId: string, ids: seq<string>)
    requires forall k :: k in rows ==> k.0 != teamId
    requires Distinct(ids) && creatorId !in ids
    ensures var r := InsertEach(rows[(teamId, creatorId) := Admin], teamId, ids).0;
      Roster(r, teamId) == (map u | u in ids :: Member)[creatorId := Admin]
  {
    var start := rows[(teamId, creatorId) := Admin];
    var r := InsertEach(start, teamId, ids);
    forall i | 0 <= i < |ids| ensures (teamId, ids[i]) !in start {
      assert ids[i] != creatorId;
    }
    var want := (map u | u in ids :: Member)[creatorId := Admin];
    var got := Roster(r.0, teamId);
    forall u ensures u in got <==> u in want {
      if u in ids {
        var i :| 0 <= i < |ids| && ids[i] == u;
        assert (teamId, ids[i]) in r.0;
      }
    }
    forall u | u in got ensures got[u] == want[u] {
      if u != creatorId {
        assert (teamId, u) !in start;
      }
    }
    assert got == want;
  }
}
