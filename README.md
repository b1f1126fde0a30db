# Collaborative task manager: ownership and authorisation rules

This project models the rules at the heart of the collaborative task manager's
backend, and two small pieces of its client:

- **Tasks.** The task table is a map from task id to task, and every task has
  one optional assignee. The model covers:
  - the service's rules on who may update or delete a task;
  - detecting that an update moved the task to another assignee;
  - the per-user dashboard;
  - the repository's filter-and-sort queries;
  - the two request-body schemas;
  - the controller's mapping from service errors to HTTP status codes;
  - the real-time events. These are kept as a log that grows only when the
    service call succeeded.
- **Teams.** The model covers the team table, the membership table and the
  invitation table. A membership row is keyed by the (team id, user id) pair.
  - The repository's `create` stores the creator as admin and then inserts the
    listed members one by one.
  - The service guards every change by membership, admin rights or
    creatorship.
  - The routed team controller works on the tables directly, with checks of
    its own. Its `removeMember` lets an admin remove the team's creator; the
    service refuses that. Both versions are modelled, and
    `TeamCtl.RemoveCreatorOutcomes` shows the difference.
- **Authentication.**
  - Registration and login run over a user table keyed by email.
  - The `authenticate` middleware picks the token: the cookie first, otherwise
    the Authorization header with "Bearer " removed.
  - The client's sign-up form schema.
- **Notifications.**
  - The server's per-user notification table.
  - The client's in-memory notification list, which socket events prepend to
    and the user marks read or clears.

Common modelling choices:

- Every query with a `where` and an `orderBy` is `Ordering.SelectSorted`. This
  method loops over the table's keys and inserts each selected row into a
  sorted sequence. Its contract says:
  - the result holds exactly the selected rows, each once;
  - the rows are sorted by the key in the chosen direction.

  The order among rows with equal sort keys is left open, as the database
  leaves it.
- A failure is a `Result` error carrying the message the code throws, and
  validation results are `Parsed` values with their issue list.
- String lengths in the schemas are counted in UTF-16 code units, as
  JavaScript counts them (`Base.Utf16Length`): a character outside the Basic
  Multilingual Plane counts twice.
- New ids, the current time and salts are parameters. So are the library
  functions for password hashing, hash comparison, token signing and token
  verification, and the date-time and email format checks.
- Mutating operations are methods on classes whose map or sequence fields
  they reassign. Each states the whole new state and keeps the class's
  `Valid()` invariant:
  - every row is stored under its own id;
  - every membership row and every invitation belongs to a stored team.

  `TeamSvc.CreatorsAreAdmins` says every team's creator has an admin row. The
  team service and the routed team handlers, except `removeMember`, preserve
  it whenever it holds before the call; none of them requires it, since the
  routed `removeMember` can break it and the other handlers go on working.

## Model

| member | source | states |
|---|---|---|
| Ordering.SelectSorted | backend/src/repositories/task.repository.ts:40-56 | A query returns every stored row that passes its `where`, each exactly once and nothing else, sorted by the `orderBy` key in its direction |
| Ordering.EnumeratedRows | backend/src/repositories/task.repository.ts:40-56 | A row is in a query result exactly when it is stored and passes the filter |
| Ordering.EnumerationsAgree | backend/src/repositories/task.repository.ts:40-56 | Two results of the same query have the same length and the same rows; only the order of rows with equal keys may differ |
| Base.ReplaceFirst | backend/src/middleware/auth.middleware.ts:21 | `String.replace` with a string pattern replaces only the first occurrence; without one the string is unchanged |
| Base.Utf16Length | backend/src/dtos/task.dto.ts:4 | A string's length as the schema library measures it, in UTF-16 code units: between its character count and twice that, and zero only for the empty string |
| Base.IndexOf | backend/src/middleware/auth.middleware.ts:21 | The position of the first occurrence of the pattern, or none when it does not occur |
| TaskDto.ParsePriority | backend/src/dtos/task.dto.ts:7 | Exactly the four priority names LOW, MEDIUM, HIGH and URGENT are accepted, each as its own value |
| TaskDto.ParseStatus | backend/src/dtos/task.dto.ts:17 | Exactly the four status names TODO, IN_PROGRESS, REVIEW and COMPLETED are accepted |
| TaskDto.ParseCreate | backend/src/dtos/task.dto.ts:3-10 | A create body is valid iff it has a title of 1 to 100 UTF-16 code units, a non-empty description, a well-formed date-time and a known priority; then every field passes through unchanged, with `assignedToId` and `teamId` optional; otherwise it has at least one issue |
| TaskDto.ParseUpdate | backend/src/dtos/task.dto.ts:12-19 | An update body is valid iff any supplied title has at most 100 UTF-16 code units, any date is well-formed and any priority or status is known; supplied fields are kept, absent ones stay absent, and there is no `teamId` field |
| TaskDto.TitleLengthBoundary | backend/src/dtos/task.dto.ts:4 | A title of 100 UTF-16 code units is accepted on create; one of 101 is refused with "Title must be less than 100 characters" |
| TaskDto.AstralTitleTooLong | backend/src/dtos/task.dto.ts:4 | A title of 60 characters outside the Basic Multilingual Plane is 120 code units long and is refused as too long |
| TaskDto.PriorityEnumWording | backend/src/dtos/task.dto.ts:7 | An unknown priority is reported with the schema library's enum message, which lists 'LOW' \| 'MEDIUM' \| 'HIGH' \| 'URGENT' and then the value received |
| TaskDto.EmptyTextAcceptedOnUpdate | backend/src/dtos/task.dto.ts:13-14 | On update an empty title and an empty description pass |
| TaskDto.AnyStatusAccepted | backend/src/dtos/task.dto.ts:17 | On update every status name is accepted, with no transition order |
| TaskRepo.ApplyPatch | backend/src/repositories/task.repository.ts:74-83 | Every supplied field replaces the stored one and every absent field is kept; id, creator, team and creation time never change |
| TaskRepo.PatchIdempotent | backend/src/repositories/task.repository.ts:74-83 | Applying the same update twice is the same as applying it once |
| TaskRepo.EmptyPatchKeepsTask | backend/src/repositories/task.repository.ts:74-83 | An update that supplies nothing changes only the update time |
| TaskRepo.TaskRepository.FindById | backend/src/repositories/task.repository.ts:61-69 | The task stored under the id, which carries that id, or none |
| TaskRepo.TaskRepository.Create | backend/src/repositories/task.repository.ts:20-35 | A fresh TODO task is stored under the new id and nothing else changes; a taken id is the store's unique-key error |
| TaskRepo.TaskRepository.Update | backend/src/repositories/task.repository.ts:74-83 | Only the identified task changes, by the patch; a missing id is the not-found error and changes nothing |
| TaskRepo.TaskRepository.Delete | backend/src/repositories/task.repository.ts:88-90 | Exactly the identified task is removed and returned; a missing id is the not-found error |
| TaskRepo.TaskRepository.FindAll | backend/src/repositories/task.repository.ts:40-56 | Exactly the tasks that match every supplied filter, each once, sorted by the chosen key (due date by default) in the chosen direction (ascending by default) |
| TaskRepo.TaskRepository.FindOverdue | backend/src/repositories/task.repository.ts:95-109 | Exactly the tasks created by or assigned to the user that are due strictly before now and not completed, earliest due first |
| TaskRepo.FindAllExact | backend/src/repositories/task.repository.ts:41-49 | A task is in a `findAll` result iff it is stored and matches every supplied filter; an absent or empty filter imposes nothing |
| TaskRepo.OverdueExact | backend/src/repositories/task.repository.ts:95-102 | A completed task, or one due exactly now or later, is never overdue; every other task of the user that is due before now is |
| TaskRepo.EmptyFiltersListAll | backend/src/repositories/task.repository.ts:41-49 | With no filter, or only empty ones, `findAll` lists every stored task |
| TaskSvc.AssigneeDelta | backend/src/services/task.service.ts:67-77 | The change flag is set iff an assignee is supplied and differs from the previous one, and then the new assignee is that value; otherwise it is null |
| TaskSvc.AssigneeChangedIffReassigned | backend/src/services/task.service.ts:67-77 | After an update the flag is set iff the task's assignee really changed, and the new assignee is the one the task now has |
| TaskSvc.TaskService.CreateTask | backend/src/services/task.service.ts:15-26 | The stored task has the caller as creator, the title and other input fields unchanged, and status TODO |
| TaskSvc.TaskService.GetTasks | backend/src/services/task.service.ts:31-33 | The filters are forwarded unchanged to the table query |
| TaskSvc.TaskService.GetTaskById | backend/src/services/task.service.ts:38-44 | The stored task for any caller, with no ownership check, or "Task not found" |
| TaskSvc.TaskService.UpdateTask | backend/src/services/task.service.ts:49-79 | A missing task fails with "Task not found" before any rights check. A caller who is neither creator nor assignee gets "Unauthorized to update this task". Both failures leave the table unchanged. Otherwise only that task is patched, and the assignee change is reported |
| TaskSvc.TaskService.DeleteTask | backend/src/services/task.service.ts:84-96 | A missing task fails with "Task not found". Anyone but the creator, the assignee included, gets "Unauthorized to delete this task" and the task stays. The creator removes exactly that task |
| TaskSvc.TaskService.GetDashboard | backend/src/services/task.service.ts:101-113 | The three lists are the tasks assigned to the user, the tasks the user created (each by due date) and the user's overdue tasks |
| TaskSvc.TaskService.GetOverdueTasks | backend/src/services/task.service.ts:118-120 | Forwards to the overdue query |
| TaskSvc.DashboardContents | backend/src/services/task.service.ts:101-113 | A task is in each dashboard list exactly when it is assigned to the user, created by the user, or overdue for the user |
| TaskSvc.OwnPastDueTaskOnDashboard | backend/src/services/task.service.ts:101-113 | A task the user created that is not completed and is past due shows up both as created and as overdue |
| TaskSvc.AnyStatusTransition | backend/src/services/task.service.ts:62-65 | An update that names a status sets it, from any current status |
| TaskSvc.UpdateKeepsOwnership | backend/src/services/task.service.ts:62-65 | An update never changes a task's creator, team, id or creation time, whatever keys the body carries |
| TaskCtl.FailureStatus | backend/src/controllers/task.controller.ts:83-88 | 404 iff the message is exactly "Task not found"; 403 iff otherwise the message contains "Unauthorized"; 400 for everything else |
| TaskCtl.ServiceRefusalsMapped | backend/src/controllers/task.controller.ts:106-111 | "Task not found" gives 404, and the service's two "Unauthorized ..." refusals give 403 |
| TaskCtl.EnumFilter | backend/src/controllers/task.controller.ts:40-47 | An absent or empty status or priority means no filter; a known name filters on it; any other value makes the query fail |
| TaskCtl.SortOption | backend/src/controllers/task.controller.ts:40-47 | An absent sort key or order falls back to the default; an unknown value makes the query fail |
| TaskCtl.ParseSortKey | backend/src/controllers/task.controller.ts:45 | The sort key reaches `orderBy` unchecked: every column of the task table is accepted, each as its own key, and any other name fails |
| TaskCtl.QueryFilters | backend/src/controllers/task.controller.ts:40-47 | Only status, priority, sort key and sort order come from the query; creator and assignee filters are never set. The query is usable iff every supplied enum is known, the sort key names a task column and the order is asc or desc |
| TaskCtl.QuerySortDefaults | backend/src/controllers/task.controller.ts:40-47 | With no sort keys in the query, tasks are sorted by due date ascending; otherwise by the keys given, "priority" included |
| TaskCtl.TaskController.CreateTask | backend/src/controllers/task.controller.ts:16-33 | Answers 201 and logs one `task:created` event only when the service stored the task. A validation failure answers 400 with the first issue's message, and a service failure answers 400 with its message; in both cases nothing is logged or stored |
| TaskCtl.TaskController.GetTasks | backend/src/controllers/task.controller.ts:38-53 | 200 with the tasks the query's filters select, in the query's order; an unusable query value answers 400 |
| TaskCtl.TaskController.GetTask | backend/src/controllers/task.controller.ts:58-65 | 200 with the stored task; every failure answers 404 |
| TaskCtl.TaskController.UpdateTask | backend/src/controllers/task.controller.ts:70-91 | A validation failure gives 400 with the first message; "Task not found" gives 404; a refusal gives 403. A `task:updated` event is logged only on 200, and any other answer leaves the table and the log unchanged |
| TaskCtl.TaskController.DeleteTask | backend/src/controllers/task.controller.ts:96-114 | A missing task gives 404 and a non-creator 403. Otherwise the task is removed, the answer is 200, and `task:deleted` with the id is logged, only then |
| TaskCtl.TaskController.GetDashboard | backend/src/controllers/task.controller.ts:119-126 | 200 with the service's three lists: assigned, created and overdue tasks, each earliest due first |
| TeamDto.ParseRole | backend/src/dtos/team.dto.ts:16 | Exactly "admin" and "member" are accepted |
| TeamDto.NameIssues | backend/src/dtos/team.dto.ts:4 | A name has no issue iff it is present and has 1 to 100 UTF-16 code units |
| TeamDto.ParseCreateTeam | backend/src/dtos/team.dto.ts:3-7 | Valid iff the name has 1 to 100 UTF-16 code units; the description and member list are optional and pass through |
| TeamDto.ParseUpdateTeam | backend/src/dtos/team.dto.ts:9-12 | Both fields are optional, but a name that is present must have 1 to 100 UTF-16 code units |
| TeamDto.ParseAddMember | backend/src/dtos/team.dto.ts:14-17 | The user id is required; the role must be "admin" or "member" and is "member" when absent; a missing user id is reported first as "Required", and with a user id any other role is reported alone with the enum message |
| TeamRepo.InsertEach | backend/src/repositories/team.repository.ts:27-37 | The member loop: existing rows are kept and every new row is the team's with role member. It succeeds iff the ids are distinct and none already has a row; a failure part-way keeps the earlier inserts |
| TeamRepo.FailureKeepsPrefix | backend/src/repositories/team.repository.ts:27-37 | When the first clash of the member list is at position j, an existing row or a repeated id, the loop fails and the table holds exactly the old rows plus the ids before j; nothing after the clash is inserted |
| TeamRepo.LoopStep | backend/src/repositories/team.repository.ts:27-37 | One turn of the loop: a fresh id is inserted and the loop goes on; a taken id stops it |
| TeamRepo.Roster | backend/src/repositories/team.repository.ts:60-79 | A team's member map holds exactly the users with a row for that team, with their roles |
| TeamRepo.FreshRoster | backend/src/repositories/team.repository.ts:8-24 | A new team whose only row is its creator's admin row has the creator as its only member, an admin |
| TeamRepo.TeamRepository.IsMember | backend/src/repositories/team.repository.ts:154-159 | True iff a row for the (team, user) pair exists |
| TeamRepo.TeamRepository.IsAdmin | backend/src/repositories/team.repository.ts:161-166 | True iff a row for the pair exists and its role is admin, so `isAdmin` implies `isMember` |
| TeamRepo.TeamRepository.FindById | backend/src/repositories/team.repository.ts:60-79 | The stored team with its current members and roles, or none |
| TeamRepo.TeamRepository.Create | backend/src/repositories/team.repository.ts:4-40 | Stores the team and the creator's admin row, then runs the member loop. It returns the snapshot read before the loop, whose only member is the creator. A failing insert leaves the team and the earlier rows stored and reports the unique-key error |
| TeamRepo.TeamRepository.FindAll | backend/src/repositories/team.repository.ts:42-58 | The teams with a row for the user, or every team when no user is given, newest first |
| TeamRepo.TeamRepository.Update | backend/src/repositories/team.repository.ts:81-95 | Sets the supplied name and description of that team only; a missing team is the not-found error |
| TeamRepo.TeamRepository.Delete | backend/src/repositories/team.repository.ts:97-99 | Removes the team together with its membership rows and invitations; nothing else changes |
| TeamRepo.TeamRepository.AddMember | backend/src/repositories/team.repository.ts:101-108 | Inserts one row with the given role. An existing row for the pair is the unique-key error, and a missing team the foreign-key error |
| TeamRepo.TeamRepository.RemoveMember | backend/src/repositories/team.repository.ts:148-152 | Deletes the pair's row if there is one and returns how many rows went; no row is not an error |
| TeamRepo.TeamRepository.CreateInvitation | backend/src/repositories/team.repository.ts:110-118 | Stores a new pending invitation to a stored team |
| TeamRepo.TeamRepository.GetInvitation | backend/src/repositories/team.repository.ts:120-128 | The invitation stored under the id, or none |
| TeamRepo.TeamRepository.GetUserInvitations | backend/src/repositories/team.repository.ts:130-139 | Exactly the user's pending invitations, newest first |
| TeamRepo.TeamRepository.UpdateInvitationStatus | backend/src/repositories/team.repository.ts:141-146 | Sets that invitation's status to accepted or rejected, and nothing else |
| TeamRepo.InsertEachKeepsCreator | backend/src/repositories/team.repository.ts:8-37 | The member loop never changes an existing row, so the creator stays an admin |
| TeamRepo.MemberListOutcome | backend/src/repositories/team.repository.ts:27-37 | A member list that names the creator, or one user twice, makes the loop fail; a list of distinct other users is inserted in full |
| TeamRepo.FullListRoster | backend/src/repositories/team.repository.ts:8-37 | A list of distinct users other than the creator leaves the new team with exactly those users as members and the creator as admin |
| TeamSvc.CreateKeepsCreators | backend/src/repositories/team.repository.ts:4-40 | Creating a team, member loop included, keeps every team's creator an admin |
| TeamSvc.RemoveKeepsCreators | backend/src/services/team.service.ts:75-87 | Removing any row that is not a creator's keeps every creator an admin |
| TeamSvc.TeamService.CreateTeam | backend/src/services/team.service.ts:11-19 | The repository's create with the caller as creator: the team and the creator's admin row are stored, then the member loop runs; a taken id or a failing member insert gives the unique-key error; invitations never change |
| TeamSvc.TeamService.GetTeams | backend/src/services/team.service.ts:21-23 | The user's teams, or every team, newest first |
| TeamSvc.TeamService.GetTeamById | backend/src/services/team.service.ts:25-37 | "Team not found" is checked before "You are not a member of this team"; a member gets the stored team with its full roster |
| TeamSvc.TeamService.UpdateTeam | backend/src/services/team.service.ts:39-46 | Only an admin changes the team; anyone else gets "Only team admins can update the team" and nothing changes |
| TeamSvc.TeamService.DeleteTeam | backend/src/services/team.service.ts:48-59 | An absent team gets "Team not found"; any caller but the creator, admins included, gets the creator-only error; both refusals change nothing. The creator deletes the team with its membership rows and invitations |
| TeamSvc.TeamService.AddMember | backend/src/services/team.service.ts:61-73 | A non-admin gets the admin error even for an existing member; an admin adding an existing member gets "User is already a member"; otherwise exactly one row is added with the given role |
| TeamSvc.TeamService.RemoveMember | backend/src/services/team.service.ts:75-87 | A non-admin gets the admin error and removing the creator gets "Cannot remove team creator"; otherwise only the target's row goes, and the answer is the number of rows deleted, 1 or 0 |
| TeamCtl.ParseCreateBody | backend/src/controllers/team.controller.ts:6-9 | The handler's create schema: valid iff the name has 1 to 100 UTF-16 code units; any member list is dropped |
| TeamCtl.TeamController.CreateTeam | backend/src/controllers/team.controller.ts:20-54 | 201 with a team whose creator is the caller and whose one membership row is the caller as admin |
| TeamCtl.TeamController.GetTeams | backend/src/controllers/team.controller.ts:59-87 | 200 with exactly the teams the caller has a row in, newest first |
| TeamCtl.TeamController.GetTeamById | backend/src/controllers/team.controller.ts:92-132 | 404 for an absent team, 403 for a caller without a row, otherwise 200 with the team and its members |
| TeamCtl.TeamController.AddMember | backend/src/controllers/team.controller.ts:137-172 | The body is parsed first, then a caller whose row is not admin gets 403. There is no duplicate check: an existing row gives 400 from the unique key. Otherwise one row is added and the answer is 201 |
| TeamCtl.TeamController.RemoveMember | backend/src/controllers/team.controller.ts:177-207 | A non-admin gets 403. A missing row gives 400. Otherwise the target's row is deleted, whoever it is, creator included, and the answer is 200 |
| TeamCtl.TeamController.DeleteTeam | backend/src/controllers/team.controller.ts:212-236 | 404 for an absent team, 403 for anyone but the creator, both changing nothing; otherwise the team goes with its membership rows and invitations and the answer is 200 |
| TeamCtl.RemoveCreatorOutcomes | backend/src/controllers/team.controller.ts:189-206 | Asked by another admin to remove the creator, the service refuses with "Cannot remove team creator", but the routed handler answers 200. The creator is then no member and the team has no creator admin; the store stays well-formed |
| TeamCtl.DeleteAfterCreatorRemoved | backend/src/controllers/team.controller.ts:177-236 | After another admin removes the creator's row, the creator still deletes the team with 200, since only creatorship is checked; the team's rows go with it |
| AuthSvc.SessionFor | backend/src/services/auth.service.ts:34-43 | The reply holds only id, email and name, plus a token signed over user id and email |
| AuthSvc.AuthService.Register | backend/src/services/auth.service.ts:16-44 | An existing email gets "User already exists" and nothing is stored. Otherwise the user is stored with the hash of the password, never the password itself, and gets a session |
| AuthSvc.AuthService.Login | backend/src/services/auth.service.ts:49-73 | Succeeds iff the email is stored and the password matches its hash, with exactly the session registration gives that user. An unknown email and a wrong password both give "Invalid credentials" |
| AuthSvc.RegisterThenLogin | backend/src/__tests__/auth.service.test.ts:77-97 | A user who just registered logs in with the same password and gets the same session; a duplicate email is refused |
| AuthSvc.LoginFailuresAlike | backend/src/__tests__/auth.service.test.ts:99-118 | An unknown email and a wrong password give the same reply |
| AuthMiddleware.TokenOf | backend/src/middleware/auth.middleware.ts:21 | A non-empty cookie wins; otherwise the header with its first "Bearer " removed; otherwise no token |
| AuthMiddleware.Authenticate | backend/src/middleware/auth.middleware.ts:14-35 | No usable token gives 401 "Authentication required". A token that does not verify gives 401 "Invalid or expired token". Otherwise the request proceeds with exactly the verified claims |
| AuthMiddleware.BearerHeaderUsesToken | backend/src/middleware/auth.middleware.ts:21 | With no cookie, "Bearer t" authenticates on exactly t |
| AuthMiddleware.BareBearerIsMissing | backend/src/middleware/auth.middleware.ts:21-26 | A header of exactly "Bearer " leaves an empty token and answers 401 "Authentication required" |
| AuthMiddleware.CookieWins | backend/src/middleware/auth.middleware.ts:21 | With a non-empty cookie the header is never looked at |
| NotificationRepo.ReadAllOf | backend/src/repositories/notification.repository.ts:22-27 | Every row of the user ends read, other users' rows are unchanged, and only `read` changes |
| NotificationRepo.RemoveAllOf | backend/src/repositories/notification.repository.ts:33-35 | Exactly the rows of other users remain, unchanged |
| NotificationRepo.NotificationRepository.Create | backend/src/repositories/notification.repository.ts:4-6 | Stores one new unread row |
| NotificationRepo.NotificationRepository.FindByUserId | backend/src/repositories/notification.repository.ts:8-13 | Exactly the user's rows, newest first |
| NotificationRepo.NotificationRepository.MarkAsRead | backend/src/repositories/notification.repository.ts:15-20 | Sets `read` on the row with that id, whoever owns it; every other row is unchanged |
| NotificationRepo.NotificationRepository.MarkAllAsRead | backend/src/repositories/notification.repository.ts:22-27 | Marks the user's unread rows read and returns their number |
| NotificationRepo.NotificationRepository.Delete | backend/src/repositories/notification.repository.ts:29-31 | Removes exactly the row with that id |
| NotificationRepo.NotificationRepository.DeleteAll | backend/src/repositories/notification.repository.ts:33-35 | Removes exactly the user's rows and returns their number |
| NotificationRepo.MarkAllIdempotent | backend/src/repositories/notification.repository.ts:22-27 | Marking all read twice equals once, and leaves the user nothing unread |
| NotificationRepo.MarkAllKeepsOthersUnread | backend/src/repositories/notification.repository.ts:22-27 | Other users' unread rows stay unread |
| NotificationRepo.DeleteAllEmptiesInbox | backend/src/repositories/notification.repository.ts:33-35 | No row of the user is left, and the table shrinks by exactly the reported count |
| NotificationRepo.DeleteAllKeepsOthers | backend/src/repositories/notification.repository.ts:33-35 | Every other user keeps exactly the rows they had |
| NotificationCtx.MarkRead | frontend/src/contexts/NotificationContext.tsx:57-61 | The entries with that id become read; length, order and all other entries are unchanged |
| NotificationCtx.MarkAllRead | frontend/src/contexts/NotificationContext.tsx:63-65 | Every entry becomes read; length and order are kept |
| NotificationCtx.Unread | frontend/src/contexts/NotificationContext.tsx:71 | The number of unread entries, at most the list's length |
| NotificationCtx.UnreadZeroIffAllRead | frontend/src/contexts/NotificationContext.tsx:71 | The count is zero iff every entry is read |
| NotificationCtx.MarkAllReadClearsCount | frontend/src/contexts/NotificationContext.tsx:63-71 | After marking all read the count is zero |
| NotificationCtx.MarkReadCount | frontend/src/contexts/NotificationContext.tsx:57-71 | Marking one id read lowers the count by exactly the unread entries with that id |
| NotificationCtx.PrependUnread | frontend/src/contexts/NotificationContext.tsx:25-49 | A new unread entry in front raises the count by one |
| NotificationCtx.NotificationCenter.OnTaskAssigned | frontend/src/contexts/NotificationContext.tsx:25-36 | Prepends one unread entry reading `<assignedBy> assigned you a task: "<title>"`; the rest is unchanged and the count rises by one |
| NotificationCtx.NotificationCenter.OnTaskUpdated | frontend/src/contexts/NotificationContext.tsx:39-49 | Prepends one unread entry reading `<updatedBy> updated "<title>"`; the rest is unchanged and the count rises by one |
| NotificationCtx.NotificationCenter.MarkAsRead | frontend/src/contexts/NotificationContext.tsx:57-61 | The list becomes the marked list, and the count drops by the unread entries with that id |
| NotificationCtx.NotificationCenter.MarkAllAsRead | frontend/src/contexts/NotificationContext.tsx:63-65 | Every entry is read in place and the count is zero |
| NotificationCtx.NotificationCenter.ClearAll | frontend/src/contexts/NotificationContext.tsx:67-69 | The list is empty and the count is zero |
| NotificationCtx.NotificationCenter.UnreadCount | frontend/src/contexts/NotificationContext.tsx:71 | The badge count: at most the length, and zero iff every entry is read |
| RegisterForm.HasCharIn | frontend/src/pages/Register.tsx:18-20 | The character-class test holds iff some character lies in the range |
| RegisterForm.PasswordIssues | frontend/src/pages/Register.tsx:17-21 | No password issue iff the password has at least 8 UTF-16 code units and an upper-case letter, a lower-case letter and a digit |
| RegisterForm.Parse | frontend/src/pages/Register.tsx:14-26 | Valid iff the name has 2 to 50 UTF-16 code units, the email passes the format check, the password is strong and the confirmation equals it. A mismatch is reported last, as "Passwords don't match" on `confirmPassword` |
| RegisterForm.MissingDigitReported | frontend/src/pages/Register.tsx:20 | A long password without a digit is refused with "Password must contain at least one number" |
| RegisterForm.ExampleStrongPassword | frontend/src/pages/Register.tsx:17-21 | "Passw0rd" meets every password rule |
| RegisterForm.AstralPasswordLongEnough | frontend/src/pages/Register.tsx:17 | "Aa1" followed by three characters outside the Basic Multilingual Plane is six characters but nine code units, and passes the length rule |

## Left out

- Real-time transport: the socket server, client sockets and the `io.emit` broadcast. The task controller keeps emitted events in a log instead.
- Password hashing and comparison, token signing and verification, and the date-time and email format checks. These belong to libraries whose code is not part of this model, so they are function parameters. `HashMatches` states the one property the login round trip needs.
- The clock, id generation and salts: they are parameters.
- Prisma's error wording for a missing record, a unique-key clash and a foreign-key clash, and for an unusable query value such as a sort key that names no column. These are fixed placeholder constants.
- Sorting on a text column compares code points; the database's collation is not modelled. Enum columns are assumed to sort in the order the schema declares their values, LOW to URGENT and TODO to COMPLETED. NULL sorts last ascending and first descending, as PostgreSQL does by default.
- TeamCtl.TeamController.AddMember: a body that fails to parse is answered with the validation library's rendering of all its issues; that text is the placeholder `AddMemberRejected`.
- Request bodies and query strings: every field is modelled as a string or missing. A JSON number, boolean, `null` or array where a string is expected, and a repeated query key that arrives as an array, are not modelled; the schema library's type errors ("Expected string, received number") and the query failure such a value causes are therefore left out.
- TeamSvc.TeamService.AddMember: the service takes the role as a free string; the model takes the `Role` enum that every caller's schema produces.
- TeamCtl.TeamController.GetTeams, TeamCtl.TeamController.GetTeamById: the handlers' 500 answer for a database failure is not modelled, because the in-memory tables cannot fail.
- Foreign keys are checked only for membership rows and invitations, against the team table. The user table's keys (task creator and assignee, member user, invitation user) and a task's team reference are not checked.
- Tasks that belong to a deleted team are not touched by the team delete. Team delete takes its membership rows and invitations with it, as the schema's cascade does.
- Order among rows with equal sort keys is unspecified: query results are pinned down up to that order.
- The multi-assignee task variant (`assignees`, `assigneeIds`) in the team controller's team lookup and the client is a different schema. It is not used by the task service, repository or schemas.
- The user controller, user repository, notification controller, auth controller and routes are not part of this model. The user table is the map inside `AuthSvc.AuthService`.
- All client UI, the HTTP client and its caches, and the form submit handlers.
- NotificationCtx.NotificationCenter.OnTaskUpdated: the changed field's name is received but, as in the client, not shown.
