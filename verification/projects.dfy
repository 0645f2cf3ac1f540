/**
  Project updates and the cascading project delete (App.tsx:1761-1766,
  1801-1804).

  Neither handler consults the permission policy: the projects page only
  shows the edit and delete buttons to roles holding EditProject and
  DeleteProject (App.tsx:618, 627), and that gate is not part of the
  handlers modelled here. The detail page's attachment upload
  (App.tsx:727-736) calls the update handler for every role.
 */
module Projects {
  import opened Types
  import opened Seqs

  /** The projects list together with the project whose detail page is
      open, if any. */
  datatype ProjectsView = ProjectsView(projects: seq<Project>, active: Option<Project>)

  /** The dashboard's two collections; the cascade delete updates both. */
  datatype Store = Store(projects: seq<Project>, tasks: seq<Task>)

  function SameProjectId(id: string): Project -> bool {
    (p: Project) => p.id == id
  }

  function OtherProject(id: string): Project -> bool {
    (p: Project) => p.id != id
  }

  /** `t => t.projectId !== projectId`: tasks of another project, and tasks
      of no project, survive. */
  function OutsideProject(id: string): Task -> bool {
    (t: Task) => t.projectId != Some(id)
  }

  function InsideProject(id: string): Task -> bool {
    (t: Task) => t.projectId == Some(id)
  }

  /** `handleUpdateProject`: replace every project with the updated one's id,
      and refresh the open detail page when it shows that project. */
  function UpdateProject(view: ProjectsView, updated: Project): (r: ProjectsView)
    ensures |r.projects| == |view.projects|
    ensures forall i :: 0 <= i < |view.projects| && view.projects[i].id == updated.id ==>
      r.projects[i] == updated
    ensures forall i :: 0 <= i < |view.projects| && view.projects[i].id != updated.id ==>
      r.projects[i] == view.projects[i]
    ensures view.active.Some? && view.active.value.id == updated.id ==> r.active == Some(updated)
    ensures !(view.active.Some? && view.active.value.id == updated.id) ==> r.active == view.active
  {
    var projects := Replace(view.projects, SameProjectId(updated.id), updated);
    if view.active.Some? && view.active.value.id == updated.id
    then ProjectsView(projects, Some(updated))
    else ProjectsView(projects, view.active)
  }

  /** Submitting the same update twice leaves the same state as once. */
  lemma UpdateProjectIdempotent(view: ProjectsView, updated: Project)
    ensures UpdateProject(UpdateProject(view, updated), updated) == UpdateProject(view, updated)
  {
    ReplaceIdempotent(view.projects, SameProjectId(updated.id), updated);
  }

  /** An update naming an unknown id leaves the list as it was. */
  lemma UpdateUnknownProjectIsNoOp(view: ProjectsView, updated: Project)
    requires forall i :: 0 <= i < |view.projects| ==> view.projects[i].id != updated.id
    ensures UpdateProject(view, updated).projects == view.projects
  {
    ReplaceNothing(view.projects, SameProjectId(updated.id), updated);
  }

  /** `handleDeleteProject`: remove the project and, in the same step, every
      task that belongs to it. */
  function DeleteProjectCascade(s: Store, id: string): (r: Store)
    ensures forall i :: 0 <= i < |r.projects| ==> r.projects[i].id != id && r.projects[i] in s.projects
    ensures forall i :: 0 <= i < |s.projects| && s.projects[i].id != id ==> s.projects[i] in r.projects
    ensures forall i :: 0 <= i < |r.tasks| ==> r.tasks[i].projectId != Some(id) && r.tasks[i] in s.tasks
    ensures forall i :: 0 <= i < |s.tasks| && s.tasks[i].projectId != Some(id) ==> s.tasks[i] in r.tasks
    ensures multiset(r.projects) <= multiset(s.projects)
    ensures multiset(r.tasks) <= multiset(s.tasks)
  {
    Store(Filter(s.projects, OtherProject(id)), Filter(s.tasks, OutsideProject(id)))
  }

  /** The cascade removes exactly the project's tasks: what is removed and
      what survives together make up the original list. */
  lemma DeleteProjectRemovesExactlyItsTasks(s: Store, id: string)
    ensures multiset(DeleteProjectCascade(s, id).tasks) + multiset(Filter(s.tasks, InsideProject(id)))
         == multiset(s.tasks)
    ensures |DeleteProjectCascade(s, id).tasks| + |Filter(s.tasks, InsideProject(id))| == |s.tasks|
  {
    FilterSplit(s.tasks, OutsideProject(id), InsideProject(id));
  }

  /** Survivors keep their order: deleting from a concatenation of task lists
      deletes from each part. */
  lemma DeleteProjectKeepsOrder(projects: seq<Project>, a: seq<Task>, b: seq<Task>, id: string)
    ensures DeleteProjectCascade(Store(projects, a + b), id).tasks
         == DeleteProjectCascade(Store(projects, a), id).tasks + DeleteProjectCascade(Store(projects, b), id).tasks
  {
    FilterConcat(a, b, OutsideProject(id));
  }

  /** Surviving projects keep their order too: deleting from a concatenation
      of project lists deletes from each part. */
  lemma DeleteProjectKeepsProjectOrder(a: seq<Project>, b: seq<Project>, tasks: seq<Task>, id: string)
    ensures DeleteProjectCascade(Store(a + b, tasks), id).projects
         == DeleteProjectCascade(Store(a, tasks), id).projects + DeleteProjectCascade(Store(b, tasks), id).projects
  {
    FilterConcat(a, b, OtherProject(id));
  }

  /** When no task belongs to the project the task list is left untouched. */
  lemma DeleteEmptyProjectKeepsTasks(s: Store, id: string)
    requires forall i :: 0 <= i < |s.tasks| ==> s.tasks[i].projectId != Some(id)
    ensures DeleteProjectCascade(s, id).tasks == s.tasks
  {
    FilterKeepsAll(s.tasks, OutsideProject(id));
  }

  /** For example, with project p1 and tasks t1 (of p1), t2 (of p2) and t3
      (of no project), deleting p1 leaves exactly [t2, t3]. */
  lemma DeleteProjectExample(p: Project, t: Task)
    ensures
      var t1 := t.(id := "t1", projectId := Some("p1"));
      var t2 := t.(id := "t2", projectId := Some("p2"));
      var t3 := t.(id := "t3", projectId := None);
      DeleteProjectCascade(Store([p.(id := "p1")], [t1, t2, t3]), "p1") == Store([], [t2, t3])
  {
    var t1 := t.(id := "t1", projectId := Some("p1"));
    var t2 := t.(id := "t2", projectId := Some("p2"));
    var t3 := t.(id := "t3", projectId := None);
    var keep := OutsideProject("p1");
    assert "p2" != "p1";
    assert [t3][1..] == [];
    assert Filter([t3], keep) == [t3];
    assert [t2, t3][1..] == [t3];
    assert Filter([t2, t3], keep) == [t2, t3];
    assert [t1, t2, t3][1..] == [t2, t3];
    assert Filter([t1, t2, t3], keep) == [t2, t3];
    assert [p.(id := "p1")][1..] == [];
  }
}
