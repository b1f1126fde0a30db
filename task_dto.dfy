/** The request-body schemas for creating and updating a task. A body is
    parsed field by field, in the schema's field order; every failing check
    adds one issue, and the body is valid only when there is none. Fields the
    schema does not declare are dropped from the parsed value. */
module TaskDto {
  import opened Base

  datatype Priority = Low | Medium | High | Urgent
  datatype Status = Todo | InProgress | Review | Completed

  function PriorityName(p: Priority): string {
    match p
    case Low => "LOW"
    case Medium => "MEDIUM"
    case High => "HIGH"
    case Urgent => "URGENT"
  }

  function StatusName(s: Status): string {
    match s
    case Todo => "TODO"
    case InProgress => "IN_PROGRESS"
    case Review => "REVIEW"
    case Completed => "COMPLETED"
  }

  /** The priority enum check: exactly the four names are accepted. */
  function ParsePriority(s: string): (r: Option<Priority>)
    ensures forall p :: r == Some(p) <==> s == PriorityName(p)
  {
    if s == "LOW" then Some(Low)
    else if s == "MEDIUM" then Some(Medium)
    else if s == "HIGH" then Some(High)
    else if s == "URGENT" then Some(Urgent)
    else None
  }

  /** The status enum check: exactly the four names are accepted. */
  function ParseStatus(s: string): (r: Option<Status>)
    ensures forall st :: r == Some(st) <==> s == StatusName(st)
  {
    if s == "TODO" then Some(Todo)
    else if s == "IN_PROGRESS" then Some(InProgress)
    else if s == "REVIEW" then Some(Review)
    else if s == "COMPLETED" then Some(Completed)
    else None
  }

  /** A create body as it arrives; `None` is a missing key. The date-time
      format check is the library's: `iso` gives the instant a well-formed
      ISO 8601 date-time denotes, and `None` for anything else. */
  datatype CreateTaskBody = CreateTaskBody(
    title: Option<string>, description: Option<string>, dueDate: Option<string>,
    priority: Option<string>, assignedToId: Option<string>, teamId: Option<string>)

  datatype CreateTaskDto = CreateTaskDto(
    title: string, description: string, dueDate: int, priority: Priority,
    assignedToId: Option<string>, teamId: Option<string>)

  /** An update body as it arrives. `teamId` and `creatorId` are keys a client
      may send that the update schema does not declare. */
  datatype UpdateTaskBody = UpdateTaskBody(
    title: Option<string>, description: Option<string>, dueDate: Option<string>,
    priority: Option<string>, status: Option<string>, assignedToId: Option<string>,
    teamId: Option<string>, creatorId: Option<string>)

  /** A parsed update: every field optional; the due date already converted. */
  datatype UpdateTaskDto = UpdateTaskDto(
    title: Option<string>, description: Option<string>, dueDate: Option<int>,
    priority: Option<Priority>, status: Option<Status>, assignedToId: Option<string>)

  /** The enum names in the order the schemas list them. */
  const PriorityNames: seq<string> := ["LOW", "MEDIUM", "HIGH", "URGENT"]
  const StatusNames: seq<string> := ["TODO", "IN_PROGRESS", "REVIEW", "COMPLETED"]

  const TitleRequired: string := "Title is required"
  const TitleTooLong: string := "Title must be less than 100 characters"
  const DescriptionRequired: string := "Description is required"
  const InvalidDateFormat: string := "Invalid date format"

  function CreateTitleIssues(title: Option<string>): seq<Issue> {
    match title
    case None => [Issue("title", Required)]
    case Some(s) =>
      (if Utf16Length(s) < 1 then [Issue("title", TitleRequired)] else [])
      + (if Utf16Length(s) > 100 then [Issue("title", TitleTooLong)] else [])
  }

  function CreateDescriptionIssues(description: Option<string>): seq<Issue> {
    match description
    case None => [Issue("description", Required)]
    case Some(s) => if Utf16Length(s) < 1 then [Issue("description", DescriptionRequired)] else []
  }

  function CreateDueDateIssues(dueDate: Option<string>, iso: string -> Option<int>): seq<Issue> {
    match dueDate
    case None => [Issue("dueDate", Required)]
    case Some(s) => if iso(s).None? then [Issue("dueDate", InvalidDateFormat)] else []
  }

  function PriorityIssues(priority: Option<string>, required: bool): seq<Issue> {
    match priority
    case None => if required then [Issue("priority", Required)] else []
    case Some(s) => if ParsePriority(s).None? then [Issue("priority", EnumMessage(PriorityNames, s))] else []
  }

  function CreateIssues(b: CreateTaskBody, iso: string -> Option<int>): seq<Issue> {
    CreateTitleIssues(b.title) + CreateDescriptionIssues(b.description)
    + CreateDueDateIssues(b.dueDate, iso) + PriorityIssues(b.priority, true)
  }

  /** What the create schema accepts. */
  ghost predicate CreateAcceptable(b: CreateTaskBody, iso: string -> Option<int>) {
    && b.title.Some? && 1 <= Utf16Length(b.title.value) <= 100
    && b.description.Some? && b.description.value != ""
    && b.dueDate.Some? && iso(b.dueDate.value).Some?
    && b.priority.Some? && b.priority.value in {"LOW", "MEDIUM", "HIGH", "URGENT"}
  }

  /** `createTaskSchema.parse`: valid exactly for acceptable bodies, and then
      every field passes through unchanged; otherwise at least one issue. */
  function ParseCreate(b: CreateTaskBody, iso: string -> Option<int>): (r: Parsed<CreateTaskDto>)
    ensures r.Valid? <==> CreateAcceptable(b, iso)
    ensures r.Valid? ==>
      && r.value.title == b.title.value
      && r.value.description == b.description.value
      && Some(r.value.dueDate) == iso(b.dueDate.value)
      && PriorityName(r.value.priority) == b.priority.value
      && r.value.assignedToId == b.assignedToId
      && r.value.teamId == b.teamId
    ensures r.Invalid? ==> |r.issues| > 0
  {
    var issues := CreateIssues(b, iso);
    if issues == [] then
      Valid(CreateTaskDto(b.title.value, b.description.value, iso(b.dueDate.value).value,
                          ParsePriority(b.priority.value).value, b.assignedToId, b.teamId))
    else
      Invalid(issues)
  }

  function UpdateTitleIssues(title: Option<string>): seq<Issue> {
    match title
    case None => []
    case Some(s) => if Utf16Length(s) > 100 then [Issue("title", TooLong100)] else []
  }

  function UpdateDueDateIssues(dueDate: Option<string>, iso: string -> Option<int>): seq<Issue> {
    match dueDate
    case None => []
    case Some(s) => if iso(s).None? then [Issue("dueDate", InvalidDatetime)] else []
  }

  function StatusIssues(status: Option<string>): seq<Issue> {
    match status
    case None => []
    case Some(s) => if ParseStatus(s).None? then [Issue("status", EnumMessage(StatusNames, s))] else []
  }

  function UpdateIssues(b: UpdateTaskBody, iso: string -> Option<int>): seq<Issue> {
    UpdateTitleIssues(b.title) + UpdateDueDateIssues(b.dueDate, iso)
    + PriorityIssues(b.priority, false) + StatusIssues(b.status)
  }

  /** What the update schema accepts: every field is optional and only the
      title length, the date format and the two enums are checked. */
  ghost predicate UpdateAcceptable(b: UpdateTaskBody, iso: string -> Option<int>) {
    && (b.title.Some? ==> Utf16Length(b.title.value) <= 100)
    && (b.dueDate.Some? ==> iso(b.dueDate.value).Some?)
    && (b.priority.Some? ==> b.priority.value in {"LOW", "MEDIUM", "HIGH", "URGENT"})
    && (b.status.Some? ==> b.status.value in {"TODO", "IN_PROGRESS", "REVIEW", "COMPLETED"})
  }

  function MapPriority(o: Option<string>): Option<Priority> {
    match o
    case None => None
    case Some(s) => ParsePriority(s)
  }

  function MapStatus(o: Option<string>): Option<Status> {
    match o
    case None => None
    case Some(s) => ParseStatus(s)
  }

  function MapDate(o: Option<string>, iso: string -> Option<int>): Option<int> {
    match o
    case None => None
    case Some(s) => iso(s)
  }

  /** `updateTaskSchema.parse`: valid exactly for acceptable bodies; each
      supplied field is kept and each absent one stays absent; undeclared
      keys are gone. */
  function ParseUpdate(b: UpdateTaskBody, iso: string -> Option<int>): (r: Parsed<UpdateTaskDto>)
    ensures r.Valid? <==> UpdateAcceptable(b, iso)
    ensures r.Valid? ==>
      && r.value.title == b.title
      && r.value.description == b.description
      && (r.value.dueDate.Some? <==> b.dueDate.Some?)
      && (b.dueDate.Some? ==> r.value.dueDate == iso(b.dueDate.value))
      && (r.value.priority.Some? <==> b.priority.Some?)
      && (b.priority.Some? ==> PriorityName(r.value.priority.value) == b.priority.value)
      && (r.value.status.Some? <==> b.status.Some?)
      && (b.status.Some? ==> StatusName(r.value.status.value) == b.status.value)
      && r.value.assignedToId == b.assignedToId
    ensures r.Invalid? ==> |r.issues| > 0
  {
    var issues := UpdateIssues(b, iso);
    if issues == [] then
      Valid(UpdateTaskDto(b.title, b.description, MapDate(b.dueDate, iso),
                          MapPriority(b.priority), MapStatus(b.status), b.assignedToId))
    else
      Invalid(issues)
  }

  /** A title of 100 code units is accepted on create, although the message
      for a longer one says "less than 100"; one of 101 code units is refused
      with that message first. */
  lemma TitleLengthBoundary(b: CreateTaskBody, iso: string -> Option<int>)
    requires b.title.Some?
    ensures Utf16Length(b.title.value) == 100 ==> CreateTitleIssues(b.title) == []
    ensures Utf16Length(b.title.value) == 101 ==>
      ParseCreate(b, iso).Invalid? && ParseCreate(b, iso).issues[0] == Issue("title", TitleTooLong)
  {
  }

  /** On update an empty title and an empty description pass. */
  lemma {:induction false} EmptyTextAcceptedOnUpdate(b: UpdateTaskBody, iso: string -> Option<int>)
    requires b.title == Some("") && b.description == Some("")
    requires b.dueDate.None? && b.priority.None? && b.status.None?
    ensures ParseUpdate(b, iso) == Valid(UpdateTaskDto(Some(""), Some(""), None, None, None, b.assignedToId))
  {
  }

  /** On update every status name is accepted on its own; nothing about the
      current status is consulted. */
  lemma {:induction false} AnyStatusAccepted(st: Status, b: UpdateTaskBody, iso: string -> Option<int>)
    requires b == UpdateTaskBody(None, None, None, None, Some(StatusName(st)), None, None, None)
    ensures ParseUpdate(b, iso) == Valid(UpdateTaskDto(None, None, None, None, Some(st), None))
  {
    assert ParseStatus(StatusName(st)) == Some(st);
  }

  /** An unknown priority is reported with the library's enum message, which
      lists the four options in schema order and then the value received. */
  lemma PriorityEnumWording(s: string)
    requires s !in PriorityNames
    ensures PriorityIssues(Some(s), true) == [Issue("priority", EnumMessage(PriorityNames, s))]
    ensures EnumMessage(PriorityNames, s) ==
      "Invalid enum value. Expected "
      + Quote("LOW") + " | " + Quote("MEDIUM") + " | " + Quote("HIGH") + " | " + Quote("URGENT")
      + ", received " + Quote(s)
  {
    assert PriorityNames[1..] == ["MEDIUM", "HIGH", "URGENT"];
    assert PriorityNames[1..][1..] == ["HIGH", "URGENT"];
    assert PriorityNames[1..][1..][1..] == ["URGENT"];
  }

  /** A title of 60 characters outside the Basic Multilingual Plane is 120
      code units long, and so too long for the create schema. */
  lemma {:induction false} AstralTitleTooLong(b: CreateTaskBody, iso: string -> Option<int>)
    requires b.title.Some? && |b.title.value| == 60
    requires forall i :: 0 <= i < 60 ==> b.title.value[i] as int >= 0x1_0000
    ensures ParseCreate(b, iso).Invalid?
    ensures ParseCreate(b, iso).issues[0] == Issue("title", TitleTooLong)
  {
    AstralLength(b.title.value);
  }
}
