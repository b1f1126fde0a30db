/** The team endpoints as routed. They read and write the team tables
    directly rather than through the team service, with their own schemas
    and checks: the create body has no member list, the caller's own
    membership row decides admin rights, and an admin may remove any row,
    the creator's included. */
module TeamCtl {
  import opened Base
  import opened Ordering
  import opened TeamDto
  import opened TeamRepo
  import opened TeamSvc

  const Unauthorized: string := "Unauthorized"
  const AddNeedsAdmin: string := "Only team admins can add members"
  const RemoveNeedsAdminReply: string := "Only team admins can remove members"
  const DeleteNeedsCreatorReply: string := "Only team creator can delete the team"
  const MemberRemoved: string := "Member removed"
  const TeamDeleted: string := "Team deleted"

  /** The message of a failed add-member parse. The handler replies with the
      validation error's own message, the library's rendering of its whole
      issue list, whose wording is not modelled. */
  const AddMemberRejected: string := "Invalid add-member body"

  /** The create schema of the handler: the name must have 1 to 100
      characters, the description is optional, and any member list in the
      body is dropped. */
  function ParseCreateBody(b: CreateTeamBody): (r: Parsed<CreateTeamDto>)
    ensures r.Valid? <==> b.name.Some? && 1 <= Utf16Length(b.name.value) <= 100
    ensures r.Valid? ==> r.value == CreateTeamDto(b.name.value, b.description, None)
    ensures r.Invalid? ==> |r.issues| > 0
    ensures b.name == Some("") ==> r == Invalid([Issue("name", TeamNameRequired)])
    ensures b.name.Some? && Utf16Length(b.name.value) > 100 ==> r == Invalid([Issue("name", TooLong100)])
  {
    var issues := NameIssues(b.name, TeamNameRequired, TooLong100);
    assert b.name == Some("") ==> issues == [Issue("name", TeamNameRequired)];
    assert b.name.Some? && Utf16Length(b.name.value) > 100 ==> issues == [Issue("name", TooLong100)];
    if issues == [] then Valid(CreateTeamDto(b.name.value, b.description, None)) else Invalid(issues)
  }

  /** The `where` of `getTeams`: teams with a membership row for the caller. */
  function HasMemberFilter(rows: map<(string, string), Role>, userId: string): Team -> bool {
    (t: Team) => (t.id, userId) in rows
  }

  class TeamController {
    const store: TeamRepository

    constructor(store: TeamRepository)
      ensures this.store == store
    {
      this.store := store;
    }

    /** `createTeam`: one insert of the team together with exactly one
        membership row, the caller as admin; 201 with that team. */
    method CreateTeam(body: CreateTeamBody, userId: string, newId: string, now: int) returns (reply: Reply<TeamView>)
      requires store.Valid()
      modifies store
      ensures store.Valid()
      ensures old(CreatorsAreAdmins(store)) ==> CreatorsAreAdmins(store)
      ensures store.invitations == old(store.invitations)
      ensures ParseCreateBody(body).Invalid? ==>
        && reply == Reply(400, Problem(ParseCreateBody(body).issues[0].message))
        && store.teams == old(store.teams) && store.members == old(store.members)
      ensures ParseCreateBody(body).Valid? && newId in old(store.teams) ==>
        && reply == Reply(400, Problem(UniqueViolation))
        && store.teams == old(store.teams) && store.members == old(store.members)
      ensures ParseCreateBody(body).Valid? && newId !in old(store.teams) ==>
        var team := Team(newId, body.name.value, body.description, userId, now);
        && reply == Reply(201, Payload(TeamView(team, map[userId := Admin])))
        && store.teams == old(store.teams)[newId := team]
        && store.members == old(store.members)[(newId, userId) := Admin]
        && Roster(store.members, newId) == map[userId := Admin]
    {
      var parsed := ParseCreateBody(body);
      if parsed.Invalid? {
        return Reply(400, Problem(parsed.issues[0].message));
      }
      if newId in store.teams {
        return Reply(400, Problem(UniqueViolation));
      }
      var team := Team(newId, parsed.value.name, parsed.value.description, userId, now);
      FreshRoster(store.members, newId, userId);
      store.teams := store.teams[newId := team];
      store.members := store.members[(newId, userId) := Admin];
      reply := Reply(201, Payload(TeamView(team, Roster(store.members, newId))));
    }

    /** `getTeams`: the caller's teams, newest first. */
    method GetTeams(userId: string) returns (reply: Reply<seq<Team>>)
      requires store.Valid()
      ensures reply.status == 200 && reply.body.Payload?
      ensures Enumerates(reply.body.data, store.teams, TeamKey, HasMemberFilter(store.members, userId))
      ensures SortedBy(reply.body.data, TeamCreatedAt, Desc)
    {
      var teams := SelectSorted(store.teams, TeamKey, HasMemberFilter(store.members, userId), TeamCreatedAt, Desc);
      reply := Reply(200, Payload(teams));
    }

    /** `getTeamById`: 404 for an absent team, 403 for a caller who is not
        among its members, 200 with the team and its members otherwise. */
    method GetTeamById(id: string, userId: string) returns (reply: Reply<TeamView>)
      requires store.Valid()
      ensures id !in store.teams ==> reply == Reply(404, Problem(TeamSvc.TeamNotFound))
      ensures id in store.teams && !store.IsMember(id, userId) ==> reply == Reply(403, Problem(Unauthorized))
      ensures id in store.teams && store.IsMember(id, userId) ==>
        && reply.status == 200 && reply.body.Payload?
        && reply.body.data.team == store.teams[id]
        && reply.body.data.members == Roster(store.members, id)
        && userId in reply.body.data.members
    {
      var found := store.FindById(id);
      if found.None? {
        return Reply(404, Problem(TeamSvc.TeamNotFound));
      }
      if userId !in found.value.members {
        return Reply(403, Problem(Unauthorized));
      }
      reply := Reply(200, Payload(found.value));
    }

    /** `addMember`: the body is parsed first, then the caller's own row must
        say admin. There is no duplicate check: a second row for the same
        pair breaks the table's unique key and answers 400. */
    method AddMember(teamId: string, body: AddMemberBody, userId: string) returns (reply: Reply<MemberRow>)
      requires store.Valid()
      modifies store
      ensures store.Valid()
      ensures old(CreatorsAreAdmins(store)) ==> CreatorsAreAdmins(store)
      ensures store.teams == old(store.teams) && store.invitations == old(store.invitations)
      ensures reply.status != 201 ==> store.members == old(store.members)
      ensures ParseAddMember(body).Invalid? ==> reply == Reply(400, Problem(AddMemberRejected))
      ensures ParseAddMember(body).Valid? && !old(store.IsAdmin(teamId, userId)) ==>
        reply == Reply(403, Problem(AddNeedsAdmin))
      ensures ParseAddMember(body).Valid? && old(store.IsAdmin(teamId, userId)) ==>
        var dto := ParseAddMember(body).value;
        && ((teamId, dto.userId) in old(store.members) ==> reply == Reply(400, Problem(UniqueViolation)))
        && ((teamId, dto.userId) !in old(store.members) ==>
              && reply == Reply(201, Payload(MemberRow(teamId, dto.userId, dto.role)))
              && store.members == old(store.members)[(teamId, dto.userId) := dto.role])
    {
      var parsed := ParseAddMember(body);
      if parsed.Invalid? {
        return Reply(400, Problem(AddMemberRejected));
      }
      if !store.IsAdmin(teamId, userId) {
        return Reply(403, Problem(AddNeedsAdmin));
      }
      var added := store.AddMember(teamId, parsed.value.userId, parsed.value.role);
      if added.Err? {
        return Reply(400, Problem(added.message));
      }
      reply := Reply(201, Payload(added.value));
    }

    /** `removeMember`: once the caller is an admin, the target's row is
        deleted whoever the target is, the team's creator included; a
        missing row is the store's not-found error and answers 400. */
    method RemoveMember(teamId: string, targetId: string, userId: string) returns (reply: Reply<()>)
      requires store.Valid()
      modifies store
      ensures store.Valid()
      ensures store.teams == old(store.teams) && store.invitations == old(store.invitations)
      ensures !old(store.IsAdmin(teamId, userId)) ==>
        reply == Reply(403, Problem(RemoveNeedsAdminReply)) && store.members == old(store.members)
      ensures old(store.IsAdmin(teamId, userId)) && (teamId, targetId) !in old(store.members) ==>
        reply == Reply(400, Problem(RecordNotFound)) && store.members == old(store.members)
      ensures old(store.IsAdmin(teamId, userId)) && (teamId, targetId) in old(store.members) ==>
        reply == Reply(200, Note(MemberRemoved)) && store.members == old(store.members) - {(teamId, targetId)}
    {
      if !store.IsAdmin(teamId, userId) {
        return Reply(403, Problem(RemoveNeedsAdminReply));
      }
      if (teamId, targetId) !in store.members {
        return Reply(400, Problem(RecordNotFound));
      }
      store.members := store.members - {(teamId, targetId)};
      reply := Reply(200, Note(MemberRemoved));
    }

    /** `deleteTeam`: 404 for an absent team, 403 for anyone but the creator,
        and otherwise the team goes with its rows. */
    method DeleteTeam(id: string, userId: string) returns (reply: Reply<()>)
      requires store.Valid()
      modifies store
      ensures store.Valid()
      ensures old(CreatorsAreAdmins(store)) ==> CreatorsAreAdmins(store)
      ensures id !in old(store.teams) ==>
        reply == Reply(404, Problem(TeamSvc.TeamNotFound)) && store.teams == old(store.teams)
        && store.members == old(store.members) && store.invitations == old(store.invitations)
      ensures id in old(store.teams) && old(store.teams)[id].creatorId != userId ==>
        reply == Reply(403, Problem(DeleteNeedsCreatorReply)) && store.teams == old(store.teams)
        && store.members == old(store.members) && store.invitations == old(store.invitations)
      ensures id in old(store.teams) && old(store.teams)[id].creatorId == userId ==>
        && reply == Reply(200, Note(TeamDeleted))
        && store.teams == old(store.teams) - {id}
        && store.members == (map k | k in old(store.members) && k.0 != id :: old(store.members)[k])
        && store.invitations ==
             (map k | k in old(store.invitations) && old(store.invitations)[k].teamId != id :: old(store.invitations)[k])
    {
      if id !in store.teams {
        return Reply(404, Problem(TeamSvc.TeamNotFound));
      }
      if store.teams[id].creatorId != userId {
        return Reply(403, Problem(DeleteNeedsCreatorReply));
      }
      var _ := store.Delete(id);
      reply := Reply(200, Note(TeamDeleted));
    }
  }

  /** The routed handler and the service disagree on removing a team's
      creator: asked by another admin of the team, the service refuses, the
      handler deletes the creator's row, and the team is left without its
      creator as admin. */
  method RemoveCreatorOutcomes(store: TeamRepository, teamId: string, adminId: string)
    returns (refused: Result<nat>, removed: Reply<()>)
    requires store.Valid() && CreatorsAreAdmins(store)
    requires teamId in store.teams && store.IsAdmin(teamId, adminId)
    modifies store
    ensures refused == Err(CannotRemoveCreator)
    ensures removed == Reply(200, Note(MemberRemoved))
    ensures !store.IsMember(teamId, old(store.teams)[teamId].creatorId)
    ensures !CreatorsAreAdmins(store)
    ensures store.Valid()
  {
    var creatorId := store.teams[teamId].creatorId;
    var service := new TeamService(store);
    refused := service.RemoveMember(teamId, creatorId, adminId);
    var controller := new TeamController(store);
    removed := controller.RemoveMember(teamId, creatorId, adminId);
  }

  /** Creatorship, not the membership row, decides a team delete: after
      another admin has removed the creator's row, the creator still deletes
      the team, with its remaining rows and invitations. */
  method DeleteAfterCreatorRemoved(store: TeamRepository, teamId: string, adminId: string)
    returns (removed: Reply<()>, deleted: Reply<()>)
    requires store.Valid()
    requires teamId in store.teams && store.IsAdmin(teamId, adminId)
    requires adminId != store.teams[teamId].creatorId
    requires store.IsMember(teamId, store.teams[teamId].creatorId)
    modifies store
    ensures removed == Reply(200, Note(MemberRemoved))
    ensures deleted == Reply(200, Note(TeamDeleted))
    ensures teamId !in store.teams && store.Valid()
    ensures forall k :: k in store.members ==> k.0 != teamId
  {
    var creatorId := store.teams[teamId].creatorId;
    var controller := new TeamController(store);
    removed := controller.RemoveMember(teamId, creatorId, adminId);
    assert teamId in store.teams && store.teams[teamId].creatorId == creatorId;
    deleted := controller.DeleteTeam(teamId, creatorId);
  }
}
