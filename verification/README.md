# Permission-gated project dashboard — a Dafny model

This project models the core of a single-page scrum dashboard.

- **Store.** Tasks and projects are kept in two lists. A role-to-permission table decides which roles may change them.
- **Permissions.**
  - `hasPermission` looks a permission up in the role table.
  - `DEFAULT_PERMISSIONS` is the table the dashboard starts with.
  - The settings page grants or revokes one permission for one role.
- **Task handlers.** Add, edit, status overwrite and delete. Each one checks a permission first. A refused call shows an alert and leaves the list unchanged.
- **Auto-completion.** When an edited task has at least one subtask and all of them are completed, it is saved as Done. The drag-and-drop status change does not apply this rule.
- **Project handlers.**
  - Update replaces the project and refreshes the open detail page.
  - Delete cascades to the project's tasks.
  - Neither handler checks a permission itself.
- **Board.** Tasks are narrowed to the "general" tasks or to one project. They are then split into one column per status, in enumeration order.
- **Timeline.** A 61-day axis and, for each dated task, a bar with an offset and a duration in days. The duration is never less than one day.
- **Reports.** Subtask progress, the per-project and overall completion percentages, the status and priority counts, story-point totals and per-user counts.

Each handler is a pure function. A gated handler returns the new state together with the permission whose absence made it refuse, if any. The policy is a `map<Role, seq<Permission>>` because the source keeps lists, so a second grant stores a duplicate. Instants are integer milliseconds. "Now" and "today" are parameters.

Modules, one per file:

- `Seqs` (seqs.dfy): order-preserving `Filter`, `Count` and `Replace` with their algebra.
- `Types` (types.dfy): enumerations and records.
- `Permissions` (permissions.dfy)
- `Tasks` (tasks.dfy)
- `Projects` (projects.dfy)
- `Board` (board.dfy)
- `Timeline` (timeline.dfy)
- `Reports` (reports.dfy)

Three behaviours of the code that a reader might not expect:

- **Project handlers are not gated.** `handleUpdateProject` and `handleDeleteProject` never consult the policy. The projects page hides its edit and delete buttons from roles without EditProject or DeleteProject. The project detail page's attachment upload (App.tsx:727-736, 786-791) has no such gate: it calls `handleUpdateProject` for every role, Viewer included.
- **Admin can lose permissions.** Nothing keeps Admin's full permission set. Only a disabled checkbox on the settings page does so, and `AdminCanLosePermission` shows that the update path itself allows the revoke.
- **An empty project id counts as "general".** The board's general filter tests `!t.projectId`, so a task whose project id is the empty string also counts as general (`Types.IsGeneral`).

## Model

| member | source | states |
|---|---|---|
| Types.AllPermissions | types.ts:10-20 | exactly nine permissions, pairwise distinct, each at its declaration index; this is `Object.values(Permission)`, Admin's default entry |
| Types.AllStatuses | types.ts:24-29 | exactly four statuses, Todo, InProgress, Review, Done in that order, pairwise distinct |
| Types.AllRoles | types.ts:2-8 | exactly five roles, pairwise distinct, each at its declaration index |
| Types.IsGeneral | App.tsx:968 | `!t.projectId` holds exactly when the id, read with a missing one as "", is the empty string: a missing id or "" |
| Permissions.Includes | App.tsx:82 | the linear scan answers true exactly when the permission occurs in the list |
| Permissions.HasPermission | App.tsx:81-83 | true exactly when the role has an entry that contains the permission; a role with no entry gets false, never an error |
| Permissions.DefaultPolicy | App.tsx:72-78 | the default table has an entry for every role; Admin holds every permission, Developer exactly EditTask, Viewer nothing |
| Permissions.DefaultPolicyMatchesTable | App.tsx:72-78 | for every role and permission, the default lists grant exactly what an independent table of sets grants |
| Permissions.UpdatePermission | App.tsx:1806-1815 | same roles afterwards; other roles' lists unchanged; the role holds the permission exactly when `allowed`; the role's other permissions are unaffected |
| Permissions.GrantAppends | App.tsx:1810 | granting appends: the old list is kept as a prefix and the permission comes last, one more copy even when the role already holds it |
| Permissions.RevokeRemovesAllCopies | App.tsx:1812 | revoking removes every copy and keeps every other entry with its multiplicity |
| Permissions.RevokeAfterGrant | App.tsx:1806-1815 | grant then revoke equals revoke alone |
| Permissions.UpdateKeepsTotal | App.tsx:1806-1815 | an update keeps an entry for every role |
| Permissions.AdminCanLosePermission | App.tsx:1806-1815 | revoking a default Admin permission takes effect; the handler has no Admin guard |
| Tasks.Gate | App.tsx:1620-1624 | the call proceeds exactly when the role holds the permission; a refusal names that permission and keeps the old state |
| Tasks.AutoComplete | App.tsx:1642-1649 | only the status can change; the saved status is Done exactly when the submitted one was, or there is at least one subtask and all are completed; otherwise it is the submitted one |
| Tasks.AutoCompleteIdempotent | App.tsx:1642-1649 | applying the rule to a saved task changes nothing |
| Tasks.AutoCompleteExamples | App.tsx:1642-1649 | all subtasks done forces Done; one pending subtask, or none at all, keeps the submitted status |
| Tasks.AddSubtask | App.tsx:1683-1686 | appends one subtask after the old buffer, with the given id and title and not completed, so the buffer is no longer all-completed |
| Tasks.ToggleSubtask | App.tsx:1688-1693 | same length, ids and titles; a subtask's flag changes exactly when its id matches |
| Tasks.ToggleTwice | App.tsx:1688-1693 | toggling the same id twice restores the buffer |
| Tasks.DeleteSubtask | App.tsx:1695-1700 | the survivors are exactly the subtasks with another id, none added or duplicated |
| Tasks.DeleteSubtaskConcat | App.tsx:1698 | the surviving subtasks keep their relative order |
| Tasks.DeleteKeepsAllCompleted | App.tsx:1695-1700 | deleting a subtask keeps an all-completed buffer all-completed |
| Tasks.SetStatus | App.tsx:1625 | same length; matching tasks change only their status, to the new one; other tasks are unchanged; no auto-completion |
| Tasks.SetStatusOverwrites | App.tsx:1625 | the last status written wins |
| Tasks.SetStatusUndo | App.tsx:1625 | moving a task and moving it back restores the list |
| Tasks.SaveEdit | App.tsx:1642-1651 | same length; matching tasks become the submitted task, with Done forced exactly by the auto-completion rule; other tasks unchanged |
| Tasks.SaveEditUnknownIsNoOp | App.tsx:1651 | an edit naming no stored id leaves the list unchanged |
| Tasks.SaveEditIdempotent | App.tsx:1642-1651 | saving the same edit twice equals saving it once |
| Tasks.DeleteById | App.tsx:1659 | the survivors are exactly the tasks with another id, none added or duplicated |
| Tasks.AddThenDelete | App.tsx:1628-1660 | adding a task under a fresh id and deleting that id restores the list |
| Tasks.DeleteByIdConcat | App.tsx:1659 | the survivors keep their relative order |
| Tasks.HandleUpdateTaskStatus | App.tsx:1620-1626 | gated by EditTask: refused means unchanged, allowed means the status overwrite |
| Tasks.HandleAddTask | App.tsx:1628-1634 | gated by CreateTask: refused means unchanged, allowed means the task is appended after the old list |
| Tasks.HandleEditTask | App.tsx:1636-1652 | gated by EditTask: refused means unchanged, allowed means the auto-completing save |
| Tasks.HandleDeleteTask | App.tsx:1654-1660 | gated by DeleteTask: refused means unchanged, allowed means the id is filtered out |
| Tasks.DeveloperCannotCreateOrDelete | App.tsx:1628-1660 | under the default table a Developer's add and delete are refused and change nothing, while edits go through |
| Projects.UpdateProject | App.tsx:1761-1766 | matching projects become the update, others unchanged; the open detail page is refreshed exactly when it shows that project |
| Projects.UpdateProjectIdempotent | App.tsx:1761-1766 | applying the same update twice equals applying it once |
| Projects.UpdateUnknownProjectIsNoOp | App.tsx:1762 | an update naming no stored id leaves the list unchanged |
| Projects.DeleteProjectCascade | App.tsx:1801-1804 | no project with the id and no task of it survives; every other project and task survives; nothing is added or duplicated in either list |
| Projects.DeleteProjectRemovesExactlyItsTasks | App.tsx:1803 | the surviving tasks and the project's tasks together are exactly the old task list, as a multiset and in number |
| Projects.DeleteProjectKeepsOrder | App.tsx:1803 | the surviving tasks keep their relative order |
| Projects.DeleteProjectKeepsProjectOrder | App.tsx:1802 | the surviving projects keep their relative order |
| Projects.DeleteEmptyProjectKeepsTasks | App.tsx:1803 | deleting a project with no tasks leaves the task list unchanged |
| Projects.DeleteProjectExample | App.tsx:1801-1804 | deleting p1 from tasks of p1, p2 and no project leaves exactly the p2 task and the task of no project |
| Board.BoardFilter | App.tsx:967-969 | the general selector keeps exactly the tasks with no project id (or an empty one); any other value keeps exactly the tasks with that project id; nothing is added or duplicated |
| Board.Column | App.tsx:1220 | a column holds exactly the shown tasks of its status, none added or duplicated |
| Board.BoardConcat | App.tsx:967-969 | the board and each of its columns keep store order: those of two lists one after the other are those of each list in turn |
| Board.Columns | App.tsx:967-971 | one column per status in enumeration order; every shown task appears in the column of its own status |
| Board.ColumnsInOrder | App.tsx:971 | the board's four columns are those of Todo, InProgress, Review and Done, in that order |
| Board.ColumnsPartition | App.tsx:1220 | the four columns together are exactly the shown tasks: none lost, none duplicated |
| Board.BoardPartition | App.tsx:967-971 | the board's columns partition the filtered tasks, as multisets and in number |
| Board.GeneralAndProjectBoardsDisjoint | App.tsx:967-969 | no task is on both the general board and the board of a non-empty project id |
| Board.BoardEmptyAfterDelete | App.tsx:967-969 | after a project's cascade delete its board is empty |
| Board.GeneralBoardSurvivesDelete | App.tsx:1801-1804 | the cascade delete of a non-empty id leaves the general board unchanged |
| Board.GeneralFilterExample | App.tsx:967-969 | with a general task and a p1 task, the general board shows only the general one |
| Timeline.AxisDays | App.tsx:1039-1048 | 61 days, the k-th is k whole days after fifteen days before today, the last is forty-five days after today |
| Timeline.TaskBar | App.tsx:1050-1066 | the offset is the start's distance from the axis start in days; a missing start means now; the duration is the span in days when at least one day, otherwise exactly one day |
| Timeline.NoDueDateIsOneDay | App.tsx:1052 | a task with a start and no due date is one day long |
| Timeline.BarOnAxisDay | App.tsx:1050-1066 | a task starting on axis day k and ending n ≥ 1 whole days later sits at offset k with duration n |
| Timeline.AxisStartExample | App.tsx:1050-1066 | a task from the axis start to four days later sits at offset 0 with duration 4 |
| Timeline.IsDated | App.tsx:1347 | a task is skipped exactly when it has neither a start nor a due date |
| Timeline.TimelineRows | App.tsx:1344-1347 | the rows' tasks are exactly the board's dated tasks, in order and with multiplicity; each row carries its own task's bar; every duration is at least one day |
| Timeline.TimelineRowsConcat | App.tsx:1344-1347 | the rows of two task lists one after the other are the rows of each in turn |
| Reports.RoundedPercent | App.tsx:100 | the result is the integer nearest to 100·part/whole with halves rounded up; it is at most 100 for a share, 0 for none, 100 for all |
| Reports.RoundingFacts | App.tsx:100 | the nearest-integer property alone forces the bounds 0 and 100 |
| Reports.Percent | App.tsx:327 | the guarded percentage is 0 for an empty whole and otherwise the rounded share, within 0..100 |
| Reports.PercentMonotonic | App.tsx:327 | a larger share never yields a smaller percentage |
| Reports.TaskProgress | App.tsx:97-101 | 0 for no subtasks; otherwise the integer nearest to 100 times the number of completed subtasks over their number, a half rounded up; within 0..100; 100 when all are completed, 0 when none are |
| Reports.AutoCompletedTaskShowsFull | App.tsx:97-101 | a task that the save rule forces to Done shows 100% progress |
| Reports.StatusCount | App.tsx:298 | counting the tasks with a status gives that status's multiplicity among the tasks' statuses |
| Reports.StatusCountsSum | App.tsx:297-302 | the four status counts add up to the number of tasks |
| Reports.StatusData | App.tsx:297-302 | four slices, Done, InProgress, Review, Todo in that order; each value is how often its status occurs among the tasks; the values add up to the number of tasks |
| Reports.PriorityCount | App.tsx:305 | counting the tasks with a priority gives that priority's multiplicity among the tasks' priorities |
| Reports.PriorityCountsSum | App.tsx:304-309 | the four priority counts add up to the number of tasks |
| Reports.PriorityData | App.tsx:304-309 | four bars, Critical, High, Medium, Low in that order; each value is how often its priority occurs among the tasks; the values add up to the number of tasks |
| Reports.OverallCompletion | App.tsx:359 | 0 with no tasks; otherwise the integer nearest to 100 times the number of Done tasks over the number of tasks, a half rounded up; within 0..100; 0 when no task is Done, 100 when every task is |
| Reports.ProjectProgress | App.tsx:599-601 | 0 for a project without tasks; otherwise the integer nearest to 100 times the project's Done tasks over its tasks, a half rounded up; within 0..100; 100 when it has tasks and all are Done; equal to the overall completion of that project's tasks |
| Reports.ProjectProgressData | App.tsx:324-332 | one entry per project, in list order, carrying its name and its progress |
| Reports.SumPoints | App.tsx:371-373 | with no negative estimates the total is non-negative and at least every single estimate |
| Reports.SumPointsConcat | App.tsx:373 | the total of two lists one after the other is the sum of their totals |
| Reports.SumPointsFold | App.tsx:371-373 | the total is the left fold from 0: no tasks give 0, and otherwise the total of all but the last task plus the last task's estimate |
| Reports.DonePointsSplit | App.tsx:371-373 | the Done tasks' points plus the other tasks' points are all the points |
| Reports.SelectedPointsNonNegative | App.tsx:371 | with no negative estimates, any selection's point total is non-negative |
| Reports.DonePointsBounded | App.tsx:371-373 | with no negative estimates, the completed points lie between 0 and the total |
| Reports.FirstWord | App.tsx:317 | a prefix of the name with no space in it, ending at the first space or at the end |
| Reports.UserEntry | App.tsx:313-319 | the user's first name; completed is the number of the user's Done tasks; completed and active add up to the user's assigned tasks |
| Reports.UserPerformance | App.tsx:312-321 | at most the first ten users, in order; each entry has the user's first name, completed is the number of the user's Done tasks, and completed and active add up to the user's assigned tasks |

## Left out

- Rendering is not modelled: JSX, the login screen, the sidebar, the modals, the charts and the styling. The `alert` on a refusal is represented only by the `denied` field of a step.
- The external task-generation and risk-analysis service (App.tsx:976-1007) is not part of this model. It is a foreign asynchronous call.
- `mockUploadFile` (App.tsx:86-95) and the file-upload handler are not modelled. They read the clock and format a float size string; attachments are kept only as opaque records.
- Ids and timestamps drawn from `Date.now()` are not generated. They are supplied as inputs, for example the new subtask's id in `Tasks.AddSubtask`.
- `new Date()` is a parameter: `today` for the axis and `now` for a task without a start.
- ISO date parsing, time zones and daylight-saving shifts of `setDate` are left out. Dates are integer millisecond instants and every day is 86 400 000 ms. An empty date string, which JavaScript treats as absent, is modelled as `None`.
- Timeline.TaskBar: the `*50px` scaling to pixels is left out; offset and duration stay in days.
- Reports.RoundedPercent: computed exactly on integers. The floating-point error of the quotient that `Math.round` sees is left out.
- The form-submit glue is not modelled: `handleTaskSubmit` (App.tsx:1713-1738), `handleProjectSubmit` (App.tsx:1768-1799), their trimmed-name checks, and project creation with its generated id. The handlers they call are modelled.
- The settings page's checkbox matrix (App.tsx:1467-1506) is left out, including the disabled Admin checkbox. It is presentation around `Permissions.UpdatePermission`.
- The view-level gates on the project buttons (App.tsx:618, 627) and `window.confirm` are left out, because they sit in rendering code.
- Permissions.UpdatePermission requires the role to have an entry. The source spreads `prev[role]`, which the total `RolePermissions` type guarantees and which would fail on a missing entry.
- The dashboard page's statistics (App.tsx:468-497) are not modelled. They show the same per-status and per-priority counts, listed in enumeration order, plus the number of projects, the active-task count, the Done-task count and the points total.
