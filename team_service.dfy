/** The team rules of the service layer: membership is checked before a team
    is shown, admin rights before it is changed or its roster edited, and
    creatorship before it is deleted. The creator can never be removed, so
    every team keeps its creator as an admin. */
module TeamSvc {
  import opened Base
  import opened Ordering
  import opened TeamDto
  import opened TeamRepo

  const TeamNotFound: string := "Team not found"
  const NotAMember: string := "You are not a member of this team"
  const UpdateNeedsAdmin: string := "Only team admins can update the team"
  const DeleteNeedsCreator: string := "Only the team creator can delete the team"
  const InviteNeedsAdmin: string := "Only team admins can invite members"
  const AlreadyMember: string := "User is already a member"
  const RemoveNeedsAdmin: string := "Only team admins can remove members"
  const CannotRemoveCreator: string := "Cannot remove team creator"

  /** Every stored team has a membership row for its creator with role admin. */
  ghost predicate CreatorsAreAdmins(repo: TeamRepository)
    reads repo
  {
    CreatorsAdmin(repo.teams, repo.members)
  }

  ghost predicate CreatorsAdmin(teams: map<string, Team>, rows: map<(string, string), Role>) {
    forall id :: id in teams ==> (id, teams[id].creatorId) in rows && rows[(id, teams[id].creatorId)] == Admin
  }

  /** Creating a team, member loop included, keeps every creator an admin:
      the new team's creator row is never overwritten by the loop, and the
      other teams' rows are untouched. */
  lemma {:induction false} CreateKeepsCreators(teams: map<string, Team>, rows: map<(string, string), Role>,
                                               team: Team, ids: seq<string>)
    requires CreatorsAdmin(teams, rows) && team.id !in teams
    ensures CreatorsAdmin(teams[team.id := team],
                          InsertEach(rows[(team.id, team.creatorId) := Admin], team.id, ids).0)
  {
    var start := rows[(team.id, team.creatorId) := Admin];
    InsertEachKeepsCreator(start, team.id, team.creatorId, ids);
    var teams' := teams[team.id := team];
    forall id | id in teams'
      ensures var k := (id, teams'[id].creatorId);
        k in InsertEach(start, team.id, ids).0 && InsertEach(start, team.id, ids).0[k] == Admin
    {
      if id != team.id {
        assert (id, teams[id].creatorId) in start;
      }
    }
  }

  /** Removing a row that is not a creator's keeps every creator an admin. */
  lemma {:induction false} RemoveKeepsCreators(teams: map<string, Team>, rows: map<(string, string), Role>,
                                               teamId: string, userId: string)
    requires CreatorsAdmin(teams, rows)
    requires teamId in teams ==> teams[teamId].creatorId != userId
    ensures CreatorsAdmin(teams, rows - {(teamId, userId)})
  {
    forall id | id in teams
      ensures (id, teams[id].creatorId) != (teamId, userId)
    {
    }
  }

  class TeamService {
    const repo: TeamRepository

    constructor(repo: TeamRepository)
      ensures this.repo == repo
    {
      this.repo := repo;
    }

    /** `createTeam`: the repository's create with the caller as creator. */
    method CreateTeam(dto: CreateTeamDto, creatorId: string, newId: string, now: int) returns (r: Result<TeamView>)
      requires repo.Valid()
      modifies repo
      ensures repo.Valid()
      ensures old(CreatorsAreAdmins(repo)) ==> CreatorsAreAdmins(repo)
      ensures repo.invitations == old(repo.invitations)
      ensures newId in old(repo.teams) ==>
        r == Err(UniqueViolation) && repo.teams == old(repo.teams) && repo.members == old(repo.members)
      ensures newId !in old(repo.teams) ==>
        var team := Team(newId, dto.name, dto.description, creatorId, now);
        var loop := InsertEach(old(repo.members)[(newId, creatorId) := Admin], newId, dto.memberIds.GetOr([]));
        && repo.teams == old(repo.teams)[newId := team]
        && repo.members == loop.0
        && (loop.1 ==> r == Ok(TeamView(team, map[creatorId := Admin])))
        && (!loop.1 ==> r == Err(UniqueViolation))
    {
      if newId !in repo.teams && CreatorsAreAdmins(repo) {
        CreateKeepsCreators(repo.teams, repo.members, Team(newId, dto.name, dto.description, creatorId, now),
                            dto.memberIds.GetOr([]));
      }
      r := repo.Create(newId, dto, creatorId, now);
    }

    /** `getTeams`: the user's teams, or every team, newest first. */
    method GetTeams(userId: Option<string>) returns (r: seq<Team>)
      requires repo.Valid()
      ensures Enumerates(r, repo.teams, TeamKey, MemberOfFilter(repo.members, userId))
      ensures SortedBy(r, TeamCreatedAt, Desc)
    {
      r := repo.FindAll(userId);
    }

    /** `getTeamById`: existence is checked before membership. */
    method GetTeamById(id: string, userId: string) returns (r: Result<TeamView>)
      requires repo.Valid()
      ensures id !in repo.teams ==> r == Err(TeamNotFound)
      ensures id in repo.teams && !repo.IsMember(id, userId) ==> r == Err(NotAMember)
      ensures id in repo.teams && repo.IsMember(id, userId) ==>
        r == Ok(TeamView(repo.teams[id], Roster(repo.members, id))) && userId in r.value.members
    {
      var found := repo.FindById(id);
      if found.None? {
        return Err(TeamNotFound);
      }
      if !repo.IsMember(id, userId) {
        return Err(NotAMember);
      }
      r := Ok(found.value);
    }

    /** `updateTeam`: only an admin may change the team; nothing else changes. */
    method UpdateTeam(id: string, dto: UpdateTeamDto, userId: string) returns (r: Result<TeamView>)
      requires repo.Valid()
      modifies repo
      ensures repo.Valid()
      ensures old(CreatorsAreAdmins(repo)) ==> CreatorsAreAdmins(repo)
      ensures repo.members == old(repo.members) && repo.invitations == old(repo.invitations)
      ensures !old(repo.IsAdmin(id, userId)) ==> r == Err(UpdateNeedsAdmin) && repo.teams == old(repo.teams)
      ensures old(repo.IsAdmin(id, userId)) ==>
        && id in old(repo.teams)
        && var t := old(repo.teams)[id];
           var t' := t.(name := dto.name.GetOr(t.name),
                        description := if dto.description.Some? then dto.description else t.description);
           repo.teams == old(repo.teams)[id := t'] && r.Ok? && r.value.team == t'
    {
      if !repo.IsAdmin(id, userId) {
        return Err(UpdateNeedsAdmin);
      }
      r := repo.Update(id, dto);
    }

    /** `deleteTeam`: an absent team and any caller but the creator, admins
        included, are refused. */
    method DeleteTeam(id: string, userId: string) returns (r: Result<Team>)
      requires repo.Valid()
      modifies repo
      ensures repo.Valid()
      ensures old(CreatorsAreAdmins(repo)) ==> CreatorsAreAdmins(repo)
      ensures id !in old(repo.teams) ==>
        r == Err(TeamNotFound) && repo.teams == old(repo.teams) && repo.members == old(repo.members)
        && repo.invitations == old(repo.invitations)
      ensures id in old(repo.teams) && old(repo.teams)[id].creatorId != userId ==>
        r == Err(DeleteNeedsCreator) && repo.teams == old(repo.teams) && repo.members == old(repo.members)
        && repo.invitations == old(repo.invitations)
      ensures id in old(repo.teams) && old(repo.teams)[id].creatorId == userId ==>
        && r == Ok(old(repo.teams)[id])
        && repo.teams == old(repo.teams) - {id}
        && repo.members == (map k | k in old(repo.members) && k.0 != id :: old(repo.members)[k])
        && repo.invitations ==
             (map k | k in old(repo.invitations) && old(repo.invitations)[k].teamId != id :: old(repo.invitations)[k])
    {
      var found := repo.FindById(id);
      if found.None? {
        return Err(TeamNotFound);
      }
      if found.value.team.creatorId != userId {
        return Err(DeleteNeedsCreator);
      }
      r := repo.Delete(id);
    }

    /** `addMember`: the requester's admin right is checked first, then the
        target's existing membership; only then is the row inserted. */
    method AddMember(teamId: string, userId: string, requesterId: string, role: Role) returns (r: Result<MemberRow>)
      requires repo.Valid()
      modifies repo
      ensures repo.Valid()
      ensures old(CreatorsAreAdmins(repo)) ==> CreatorsAreAdmins(repo)
      ensures repo.teams == old(repo.teams) && repo.invitations == old(repo.invitations)
      ensures !old(repo.IsAdmin(teamId, requesterId)) ==>
        r == Err(InviteNeedsAdmin) && repo.members == old(repo.members)
      ensures old(repo.IsAdmin(teamId, requesterId)) && old(repo.IsMember(teamId, userId)) ==>
        r == Err(AlreadyMember) && repo.members == old(repo.members)
      ensures old(repo.IsAdmin(teamId, requesterId)) && !old(repo.IsMember(teamId, userId)) ==>
        r == Ok(MemberRow(teamId, userId, role))
        && repo.members == old(repo.members)[(teamId, userId) := role]
    {
      if !repo.IsAdmin(teamId, requesterId) {
        return Err(InviteNeedsAdmin);
      }
      if repo.IsMember(teamId, userId) {
        return Err(AlreadyMember);
      }
      r := repo.AddMember(teamId, userId, role);
    }

    /** `removeMember`: the requester must be an admin and the target must not
        be the creator; otherwise the target's row, if any, is deleted. */
    method RemoveMember(teamId: string, userId: string, requesterId: string) returns (r: Result<nat>)
      requires repo.Valid()
      modifies repo
      ensures repo.Valid()
      ensures old(CreatorsAreAdmins(repo)) ==> CreatorsAreAdmins(repo)
      ensures repo.teams == old(repo.teams) && repo.invitations == old(repo.invitations)
      ensures !old(repo.IsAdmin(teamId, requesterId)) ==>
        r == Err(RemoveNeedsAdmin) && repo.members == old(repo.members)
      ensures old(repo.IsAdmin(teamId, requesterId)) ==> teamId in repo.teams
      ensures teamId in repo.teams && old(repo.IsAdmin(teamId, requesterId)) && repo.teams[teamId].creatorId == userId ==>
        r == Err(CannotRemoveCreator) && repo.members == old(repo.members)
      ensures teamId in repo.teams && old(repo.IsAdmin(teamId, requesterId)) && repo.teams[teamId].creatorId != userId ==>
        r == Ok(if (teamId, userId) in old(repo.members) then 1 else 0)
        && repo.members == old(repo.members) - {(teamId, userId)}
    {
      if !repo.IsAdmin(teamId, requesterId) {
        return Err(RemoveNeedsAdmin);
      }
      var found := repo.FindById(teamId);
      if found.Some? && found.value.team.creatorId == userId {
        return Err(CannotRemoveCreator);
      }
      if CreatorsAreAdmins(repo) {
        RemoveKeepsCreators(repo.teams, repo.members, teamId, userId);
      }
      var count := repo.RemoveMember(teamId, userId);
      r := Ok(count);
    }
  }
}
