/**
  The task store and its lifecycle rules (App.tsx:1620-1700).

  Each handler is a pure function from the task list before the call to a
  `Step`: the list after the call, plus the permission whose absence made
  the handler refuse (the source shows an alert and returns). A refused
  call leaves the list exactly as it was.
 */
module Tasks {
  import opened Types
  import opened Seqs
  import opened Permissions

  /** The outcome of a gated handler. */
  datatype Step<S> = Step(state: S, denied: Option<Permission>)

  /** Run `applied` when `role` holds `perm`, otherwise refuse and keep `before`. */
  function Gate<S>(role: Role, policy: Policy, perm: Permission, before: S, applied: S): (r: Step<S>)
    ensures r.denied == None <==> HasPermission(role, perm, policy)
    ensures r.denied == None ==> r.state == applied
    ensures r.denied != None ==> r.denied == Some(perm) && r.state == before
  {
    if HasPermission(role, perm, policy) then Step(applied, None)
    else Step(before, Some(perm))
  }

  // ---------------------------------------------------------------- subtasks

  function IsCompleted(s: Subtask): bool {
    s.completed
  }

  /** `subtasks.every(s => s.completed)`. */
  predicate AllCompleted(subs: seq<Subtask>) {
    Every(subs, IsCompleted)
  }

  /** The save-time auto-completion rule: a task with at least one subtask,
      all of them completed, is stored as Done whatever status was
      submitted. With no subtasks the submitted status is kept. */
  function AutoComplete(t: Task): (r: Task)
    ensures r.(status := t.status) == t
    ensures r.status == Done <==> t.status == Done || (|t.subtasks| > 0 && AllCompleted(t.subtasks))
    ensures r.status != Done ==> r.status == t.status
  {
    if |t.subtasks| > 0 && AllCompleted(t.subtasks) && t.status != Done
    then t.(status := Done)
    else t
  }

  /** Applying the rule to an already saved task changes nothing. */
  lemma AutoCompleteIdempotent(t: Task)
    ensures AutoComplete(AutoComplete(t)) == AutoComplete(t)
  {
  }

  /** The three save-time cases: two completed subtasks force Done; one
      incomplete subtask keeps the submitted status; no subtasks keep it too. */
  lemma AutoCompleteExamples(t: Task)
    ensures AutoComplete(t.(status := InProgress,
      subtasks := [Subtask("s1", "", true), Subtask("s2", "", true)])).status == Done
    ensures AutoComplete(t.(status := InProgress,
      subtasks := [Subtask("s1", "", true), Subtask("s2", "", false)])).status == InProgress
    ensures AutoComplete(t.(status := Review, subtasks := [])).status == Review
  {
    var pending := [Subtask("s1", "", true), Subtask("s2", "", false)];
    assert !IsCompleted(pending[1]);
  }

  /** `handleAddSubtask`: a new subtask starts incomplete. */
  function AddSubtask(subs: seq<Subtask>, id: string, title: string): (r: seq<Subtask>)
    ensures |r| == |subs| + 1 && r[..|subs|] == subs
    ensures r[|subs|].id == id && r[|subs|].title == title && !r[|subs|].completed
    ensures !AllCompleted(r)
  {
    subs + [Subtask(id, title, false)]
  }

  /** `handleToggleSubtask`: flip the `completed` flag of the subtasks with
      the given id. */
  function ToggleSubtask(subs: seq<Subtask>, id: string): (r: seq<Subtask>)
    ensures |r| == |subs|
    ensures forall i :: 0 <= i < |subs| ==> r[i].id == subs[i].id && r[i].title == subs[i].title
    ensures forall i :: 0 <= i < |subs| ==> (r[i].completed != subs[i].completed <==> subs[i].id == id)
  {
    if |subs| == 0 then []
    else
      var s := subs[0];
      [if s.id == id then s.(completed := !s.completed) else s] + ToggleSubtask(subs[1..], id)
  }

  /** Toggling the same subtask twice restores the buffer. */
  lemma {:induction false} ToggleTwice(subs: seq<Subtask>, id: string)
    ensures ToggleSubtask(ToggleSubtask(subs, id), id) == subs
  {
    var once := ToggleSubtask(subs, id);
    var twice := ToggleSubtask(once, id);
    assert forall i :: 0 <= i < |subs| ==> twice[i] == subs[i];
  }

  function SubtaskNotId(id: string): Subtask -> bool {
    (s: Subtask) => s.id != id
  }

  /** `handleDeleteSubtask`: drop the subtasks with the given id. */
  function DeleteSubtask(subs: seq<Subtask>, id: string): (r: seq<Subtask>)
    ensures forall i :: 0 <= i < |r| ==> r[i].id != id && r[i] in subs
    ensures forall i :: 0 <= i < |subs| && subs[i].id != id ==> subs[i] in r
    ensures multiset(r) <= multiset(subs)
  {
    Filter(subs, SubtaskNotId(id))
  }

  /** The surviving subtasks keep their order: deleting from a
      concatenation deletes from each part. */
  lemma DeleteSubtaskConcat(a: seq<Subtask>, b: seq<Subtask>, id: string)
    ensures DeleteSubtask(a + b, id) == DeleteSubtask(a, id) + DeleteSubtask(b, id)
  {
    FilterConcat(a, b, SubtaskNotId(id));
  }

  /** Deleting subtasks never breaks "all completed": if every subtask was
      done, every remaining one still is. */
  lemma DeleteKeepsAllCompleted(subs: seq<Subtask>, id: string)
    requires AllCompleted(subs)
    ensures AllCompleted(DeleteSubtask(subs, id))
  {
  }

  // ------------------------------------------------------------ task list

  /** `prev.map(t => t.id === id ? { ...t, status: newStatus } : t)`. */
  function SetStatus(tasks: seq<Task>, id: string, status: Status): (r: seq<Task>)
    ensures |r| == |tasks|
    ensures forall i :: 0 <= i < |tasks| ==> r[i].(status := tasks[i].status) == tasks[i]
    ensures forall i :: 0 <= i < |tasks| && tasks[i].id == id ==> r[i].status == status
    ensures forall i :: 0 <= i < |tasks| && tasks[i].id != id ==> r[i] == tasks[i]
  {
    if |tasks| == 0 then []
    else
      var t := tasks[0];
      [if t.id == id then t.(status := status) else t] + SetStatus(tasks[1..], id, status)
  }

  /** The last status written wins. */
  lemma {:induction false} SetStatusOverwrites(tasks: seq<Task>, id: string, a: Status, b: Status)
    ensures SetStatus(SetStatus(tasks, id, a), id, b) == SetStatus(tasks, id, b)
  {
    var lhs := SetStatus(SetStatus(tasks, id, a), id, b);
    var rhs := SetStatus(tasks, id, b);
    assert forall i :: 0 <= i < |tasks| ==> lhs[i] == rhs[i];
  }

  /** Moving a task and moving it back to where it was restores the list. */
  lemma {:induction false} SetStatusUndo(tasks: seq<Task>, id: string, s: Status, back: Status)
    requires forall i :: 0 <= i < |tasks| && tasks[i].id == id ==> tasks[i].status == back
    ensures SetStatus(SetStatus(tasks, id, s), id, back) == tasks
  {
    var lhs := SetStatus(SetStatus(tasks, id, s), id, back);
    assert forall i :: 0 <= i < |tasks| ==> lhs[i] == tasks[i];
  }

  function SameId(id: string): Task -> bool {
    (t: Task) => t.id == id
  }

  /** The edit path, `prev.map(t => t.id === finalTask.id ? finalTask : t)`
      after the auto-completion rule: every stored task with the edited id
      becomes the submitted task, except that its status is forced to Done
      when it has subtasks and all are completed. */
  function SaveEdit(tasks: seq<Task>, updated: Task): (r: seq<Task>)
    ensures |r| == |tasks|
    ensures forall i :: 0 <= i < |tasks| && tasks[i].id == updated.id ==>
      r[i].(status := updated.status) == updated
    ensures forall i :: 0 <= i < |tasks| && tasks[i].id == updated.id ==>
      (r[i].status == Done <==>
         updated.status == Done || (|updated.subtasks| > 0 && AllCompleted(updated.subtasks)))
    ensures forall i :: 0 <= i < |tasks| && tasks[i].id == updated.id && r[i].status != Done ==>
      r[i].status == updated.status
    ensures forall i :: 0 <= i < |tasks| && tasks[i].id != updated.id ==> r[i] == tasks[i]
  {
    Replace(tasks, SameId(updated.id), AutoComplete(updated))
  }

  /** An edit naming an id that is not stored is a no-op. */
  lemma SaveEditUnknownIsNoOp(tasks: seq<Task>, updated: Task)
    requires forall i :: 0 <= i < |tasks| ==> tasks[i].id != updated.id
    ensures SaveEdit(tasks, updated) == tasks
  {
    ReplaceNothing(tasks, SameId(updated.id), AutoComplete(updated));
  }

  /** Saving the same edit twice gives the same list as saving it once. */
  lemma SaveEditIdempotent(tasks: seq<Task>, updated: Task)
    ensures SaveEdit(SaveEdit(tasks, updated), updated) == SaveEdit(tasks, updated)
  {
    ReplaceIdempotent(tasks, SameId(updated.id), AutoComplete(updated));
  }

  function NotId(id: string): Task -> bool {
    (t: Task) => t.id != id
  }

  /** `prev.filter(t => t.id !== taskId)`. */
  function DeleteById(tasks: seq<Task>, id: string): (r: seq<Task>)
    ensures forall i :: 0 <= i < |r| ==> r[i].id != id && r[i] in tasks
    ensures forall i :: 0 <= i < |tasks| && tasks[i].id != id ==> tasks[i] in r
    ensures multiset(r) <= multiset(tasks)
  {
    Filter(tasks, NotId(id))
  }

  /** Adding a task under a fresh id and deleting that id restores the list. */
  lemma AddThenDelete(tasks: seq<Task>, t: Task)
    requires forall i :: 0 <= i < |tasks| ==> tasks[i].id != t.id
    ensures DeleteById(tasks + [t], t.id) == tasks
  {
    FilterConcat(tasks, [t], NotId(t.id));
    FilterKeepsAll(tasks, NotId(t.id));
  }

  /** Deleting keeps the survivors in their original order: deleting from a
      concatenation deletes from each part. */
  lemma DeleteByIdConcat(a: seq<Task>, b: seq<Task>, id: string)
    ensures DeleteById(a + b, id) == DeleteById(a, id) + DeleteById(b, id)
  {
    FilterConcat(a, b, NotId(id));
  }

  // --------------------------------------------------------------- handlers

  /** `handleUpdateTaskStatus`: the drag-and-drop path, gated by EditTask.
      It overwrites the status only and does NOT apply the auto-completion
      rule. */
  function HandleUpdateTaskStatus(role: Role, policy: Policy, tasks: seq<Task>, id: string, status: Status)
    : (r: Step<seq<Task>>)
    ensures r.denied == None <==> HasPermission(role, EditTask, policy)
    ensures r.denied != None ==> r.denied == Some(EditTask) && r.state == tasks
    ensures r.denied == None ==> r.state == SetStatus(tasks, id, status)
  {
    Gate(role, policy, EditTask, tasks, SetStatus(tasks, id, status))
  }

  /** `handleAddTask`: append, gated by CreateTask. */
  function HandleAddTask(role: Role, policy: Policy, tasks: seq<Task>, t: Task): (r: Step<seq<Task>>)
    ensures r.denied == None <==> HasPermission(role, CreateTask, policy)
    ensures r.denied != None ==> r.denied == Some(CreateTask) && r.state == tasks
    ensures r.denied == None ==>
      (|r.state| == |tasks| + 1 && r.state[..|tasks|] == tasks && r.state[|tasks|] == t)
  {
    Gate(role, policy, CreateTask, tasks, tasks + [t])
  }

  /** `handleEditTask`: auto-complete then replace, gated by EditTask. */
  function HandleEditTask(role: Role, policy: Policy, tasks: seq<Task>, updated: Task): (r: Step<seq<Task>>)
    ensures r.denied == None <==> HasPermission(role, EditTask, policy)
    ensures r.denied != None ==> r.denied == Some(EditTask) && r.state == tasks
    ensures r.denied == None ==> r.state == SaveEdit(tasks, updated)
  {
    Gate(role, policy, EditTask, tasks, SaveEdit(tasks, updated))
  }

  /** `handleDeleteTask`: filter out the id, gated by DeleteTask. */
  function HandleDeleteTask(role: Role, policy: Policy, tasks: seq<Task>, id: string): (r: Step<seq<Task>>)
    ensures r.denied == None <==> HasPermission(role, DeleteTask, policy)
    ensures r.denied != None ==> r.denied == Some(DeleteTask) && r.state == tasks
    ensures r.denied == None ==> r.state == DeleteById(tasks, id)
  {
    Gate(role, policy, DeleteTask, tasks, DeleteById(tasks, id))
  }

  /** Under the default policy a Developer may edit and move tasks but every
      attempt to create or delete one is refused and changes nothing. */
  lemma DeveloperCannotCreateOrDelete(tasks: seq<Task>, t: Task, id: string)
    ensures HandleAddTask(Developer, DefaultPolicy(), tasks, t) == Step(tasks, Some(CreateTask))
    ensures HandleDeleteTask(Developer, DefaultPolicy(), tasks, id) == Step(tasks, Some(DeleteTask))
    ensures HandleEditTask(Developer, DefaultPolicy(), tasks, t).denied == None
  {
  }
}
