/**
  The enumerations and record shapes of the dashboard (types.ts).

  Identifiers are strings; an optional TypeScript field (`assignee?`,
  `projectId?`, `startDate?`) is an `Option`. Calendar dates are kept as
  instants in integer milliseconds (what `Date.getTime()` returns); parsing
  the ISO `YYYY-MM-DD` text into an instant is outside this model.
 */
module Types {

  datatype Option<T> = None | Some(value: T) {
    /** The value, or `default` when absent (the `??` operator). */
    function GetOr(default: T): T {
      match this
      case Some(v) => v
      case None => default
    }
  }

  /** The five roles a user can hold. */
  datatype Role = Admin | ProductOwner | ScrumMaster | Developer | Viewer

  /** The closed set of nine gated actions. */
  datatype Permission =
    | ManageSettings | ManageUsers
    | CreateProject | EditProject | DeleteProject
    | CreateTask | EditTask | DeleteTask
    | ViewReports

  /** Task status. There is deliberately no transition table: any status
      may follow any other. */
  datatype Status = Todo | InProgress | Review | Done

  datatype Priority = Low | Medium | High | Critical

  /** Declaration position of each enumeration value (0-based). */
  function PermissionIndex(p: Permission): nat {
    match p
    case ManageSettings => 0
    case ManageUsers => 1
    case CreateProject => 2
    case EditProject => 3
    case DeleteProject => 4
    case CreateTask => 5
    case EditTask => 6
    case DeleteTask => 7
    case ViewReports => 8
  }

  function StatusIndex(s: Status): nat {
    match s
    case Todo => 0
    case InProgress => 1
    case Review => 2
    case Done => 3
  }

  function RoleIndex(role: Role): nat {
    match role
    case Admin => 0
    case ProductOwner => 1
    case ScrumMaster => 2
    case Developer => 3
    case Viewer => 4
  }

  /** `Object.values(Permission)`: every permission, in declaration order. */
  function AllPermissions(): (r: seq<Permission>)
    ensures |r| == 9
    ensures forall p: Permission :: PermissionIndex(p) < |r| && r[PermissionIndex(p)] == p
    ensures forall i, j :: 0 <= i < j < |r| ==> r[i] != r[j]
  {
    [ManageSettings, ManageUsers, CreateProject, EditProject, DeleteProject,
     CreateTask, EditTask, DeleteTask, ViewReports]
  }

  /** `Object.values(TaskStatus)`: the four statuses, Todo first, Done last. */
  function AllStatuses(): (r: seq<Status>)
    ensures |r| == 4
    ensures forall s: Status :: StatusIndex(s) < |r| && r[StatusIndex(s)] == s
    ensures forall i, j :: 0 <= i < j < |r| ==> r[i] != r[j]
  {
    [Todo, InProgress, Review, Done]
  }

  /** `Object.values(UserRole)`: the five roles in declaration order. */
  function AllRoles(): (r: seq<Role>)
    ensures |r| == 5
    ensures forall role: Role :: RoleIndex(role) < |r| && r[RoleIndex(role)] == role
    ensures forall i, j :: 0 <= i < j < |r| ==> r[i] != r[j]
  {
    [Admin, ProductOwner, ScrumMaster, Developer, Viewer]
  }

  /** `RolePermissions`: each role's list of granted permissions. A list,
      not a set: granting twice stores the permission twice. */
  type Policy = map<Role, seq<Permission>>

  /** The `Record<UserRole, Permission[]>` type demands an entry per role. */
  predicate Total(policy: Policy) {
    forall role: Role :: role in policy
  }

  datatype User = User(id: string, name: string, role: Role, avatar: string)

  /** A stored upload; the core only keeps and lists these. */
  datatype Attachment = Attachment(
    id: string, name: string, url: string, fileType: string,
    size: string, uploadDate: int)

  datatype Subtask = Subtask(id: string, title: string, completed: bool)

  datatype Task = Task(
    id: string,
    title: string,
    description: string,
    status: Status,
    assignee: Option<string>,
    priority: Priority,
    points: int,
    projectId: Option<string>,
    createdAt: int,
    startDate: Option<int>,
    dueDate: Option<int>,
    color: Option<string>,
    attachments: seq<Attachment>,
    subtasks: seq<Subtask>)

  datatype Project = Project(
    id: string,
    name: string,
    description: string,
    managerId: string,
    startDate: string,
    endDate: string,
    tasks: seq<Task>,
    members: seq<string>,
    createdAt: int,
    attachments: seq<Attachment>)

  function HasStatus(s: Status): Task -> bool {
    (t: Task) => t.status == s
  }

  /** A general task is one with no project: `!t.projectId`, which
      JavaScript takes to be true of a missing id and of the empty string,
      that is, of an id that reads as "" once a missing one defaults to "". */
  function IsGeneral(t: Task): (b: bool)
    ensures b <==> t.projectId.GetOr("") == ""
  {
    t.projectId == None || t.projectId == Some("")
  }
}
