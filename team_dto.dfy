/** The request-body schemas of the team endpoints: creating a team, updating
    it, and adding a member. */
module TeamDto {
  import opened Base

  /** A member's role in a team. */
  datatype Role = Admin | Member

  function RoleName(r: Role): string {
    match r
    case Admin => "admin"
    case Member => "member"
  }

  /** The role names in the order the schema lists them. */
  const RoleNames: seq<string> := ["admin", "member"]

  function ParseRole(s: string): (r: Option<Role>)
    ensures forall role :: r == Some(role) <==> s == RoleName(role)
  {
    if s == "admin" then Some(Admin)
    else if s == "member" then Some(Member)
    else None
  }

  const TeamNameRequired: string := "Team name is required"
  const TeamNameTooLong: string := "Team name too long"

  /** A create body as it arrives; `None` is a missing key. */
  datatype CreateTeamBody = CreateTeamBody(name: Option<string>, description: Option<string>, memberIds: Option<seq<string>>)

  datatype CreateTeamDto = CreateTeamDto(name: string, description: Option<string>, memberIds: Option<seq<string>>)

  datatype UpdateTeamBody = UpdateTeamBody(name: Option<string>, description: Option<string>)

  datatype UpdateTeamDto = UpdateTeamDto(name: Option<string>, description: Option<string>)

  datatype AddMemberBody = AddMemberBody(userId: Option<string>, role: Option<string>)

  datatype AddMemberDto = AddMemberDto(userId: string, role: Role)

  /** The checks on a required name of 1 to 100 UTF-16 code units, with the
      message for each bound. */
  function NameIssues(name: Option<string>, tooShort: string, tooLong: string): (r: seq<Issue>)
    ensures r == [] <==> name.Some? && 1 <= Utf16Length(name.value) <= 100
  {
    match name
    case None => [Issue("name", Required)]
    case Some(s) =>
      (if Utf16Length(s) < 1 then [Issue("name", tooShort)] else [])
      + (if Utf16Length(s) > 100 then [Issue("name", tooLong)] else [])
  }

  /** `createTeamSchema.parse`: the name must have 1 to 100 UTF-16 code
      units; the
      description and the member list are optional and pass through. */
  function ParseCreateTeam(b: CreateTeamBody): (r: Parsed<CreateTeamDto>)
    ensures r.Valid? <==> b.name.Some? && 1 <= Utf16Length(b.name.value) <= 100
    ensures r.Valid? ==> r.value == CreateTeamDto(b.name.value, b.description, b.memberIds)
    ensures r.Invalid? ==> |r.issues| > 0
    ensures b.name == Some("") ==> r == Invalid([Issue("name", TeamNameRequired)])
    ensures b.name.Some? && Utf16Length(b.name.value) > 100 ==> r == Invalid([Issue("name", TeamNameTooLong)])
  {
    var issues := NameIssues(b.name, TeamNameRequired, TeamNameTooLong);
    assert b.name == Some("") ==> issues == [Issue("name", TeamNameRequired)];
    assert b.name.Some? && Utf16Length(b.name.value) > 100 ==> issues == [Issue("name", TeamNameTooLong)];
    if issues == [] then Valid(CreateTeamDto(b.name.value, b.description, b.memberIds))
    else Invalid(issues)
  }

  /** `updateTeamSchema.parse`: both fields optional, but a name that is
      present must still have 1 to 100 code units. */
  function ParseUpdateTeam(b: UpdateTeamBody): (r: Parsed<UpdateTeamDto>)
    ensures r.Valid? <==> (b.name.Some? ==> 1 <= Utf16Length(b.name.value) <= 100)
    ensures r.Valid? ==> r.value == UpdateTeamDto(b.name, b.description)
    ensures r.Invalid? ==> |r.issues| > 0
  {
    var issues := if b.name.None? then [] else NameIssues(b.name, TooShort1, TooLong100);
    if issues == [] then Valid(UpdateTeamDto(b.name, b.description))
    else Invalid(issues)
  }

  /** `addMemberSchema.parse`: the user id is required; the role must be
      "admin" or "member" and is "member" when absent. */
  function ParseAddMember(b: AddMemberBody): (r: Parsed<AddMemberDto>)
    ensures r.Valid? <==> b.userId.Some? && (b.role.Some? ==> b.role.value in {"admin", "member"})
    ensures r.Valid? ==> r.value.userId == b.userId.value
    ensures r.Valid? && b.role.None? ==> r.value.role == Member
    ensures r.Valid? && b.role.Some? ==> RoleName(r.value.role) == b.role.value
    ensures r.Invalid? ==> |r.issues| > 0
    ensures b.userId.None? ==> r.Invalid? && r.issues[0] == Issue("userId", Required)
    ensures b.userId.Some? && b.role.Some? && ParseRole(b.role.value).None? ==>
      r == Invalid([Issue("role", EnumMessage(RoleNames, b.role.value))])
  {
    var userIssues := if b.userId.None? then [Issue("userId", Required)] else [];
    var roleIssues := if b.role.Some? && ParseRole(b.role.value).None? then [Issue("role", EnumMessage(RoleNames, b.role.value))] else [];
    if userIssues + roleIssues == [] then
      Valid(AddMemberDto(b.userId.value, if b.role.None? then Member else ParseRole(b.role.value).value))
    else
      Invalid(userIssues + roleIssues)
  }
}
