/**
  The kanban board (App.tsx:967-971, 1198-1220): the task list is narrowed
  to the selected project, or to the general tasks, and then split into one
  column per status in the enumeration's order. Within a column tasks keep
  their store order; there is no secondary sort.
 */
module Board {
  import opened Types
  import opened Seqs
  import opened Projects

  /** The selector value that stands for "tasks of no project". */
  const GeneralSelector := "general"

  /** `filteredTasks`: for the general selector, the tasks with no project;
      for any other value, the tasks whose project id equals it. */
  function BoardFilter(tasks: seq<Task>, selected: string): (r: seq<Task>)
    ensures forall i :: 0 <= i < |r| ==> r[i] in tasks
    ensures selected == GeneralSelector ==>
      (forall i :: 0 <= i < |r| ==> IsGeneral(r[i])) &&
      (forall i :: 0 <= i < |tasks| && IsGeneral(tasks[i]) ==> tasks[i] in r)
    ensures selected != GeneralSelector ==>
      (forall i :: 0 <= i < |r| ==> r[i].projectId == Some(selected)) &&
      (forall i :: 0 <= i < |tasks| && tasks[i].projectId == Some(selected) ==> tasks[i] in r)
    ensures multiset(r) <= multiset(tasks)
  {
    if selected == GeneralSelector then Filter(tasks, IsGeneral)
    else Filter(tasks, InsideProject(selected))
  }

  /** One column: the shown tasks with the given status, in store order. */
  function Column(shown: seq<Task>, s: Status): (r: seq<Task>)
    ensures forall i :: 0 <= i < |r| ==> r[i].status == s && r[i] in shown
    ensures forall i :: 0 <= i < |shown| && shown[i].status == s ==> shown[i] in r
    ensures multiset(r) <= multiset(shown)
  {
    Filter(shown, HasStatus(s))
  }

  /** The board keeps store order: the board, and each of its columns, of
      two task lists one after the other is that of each list in turn. */
  lemma BoardConcat(a: seq<Task>, b: seq<Task>, selected: string, s: Status)
    ensures BoardFilter(a + b, selected) == BoardFilter(a, selected) + BoardFilter(b, selected)
    ensures Column(BoardFilter(a + b, selected), s)
         == Column(BoardFilter(a, selected), s) + Column(BoardFilter(b, selected), s)
  {
    if selected == GeneralSelector {
      FilterConcat(a, b, IsGeneral);
    } else {
      FilterConcat(a, b, InsideProject(selected));
    }
    FilterConcat(BoardFilter(a, selected), BoardFilter(b, selected), HasStatus(s));
  }

  /** `columns.map(status => filteredTasks.filter(t => t.status === status))`. */
  function Columns(tasks: seq<Task>, selected: string): (r: seq<seq<Task>>)
    ensures |r| == |AllStatuses()|
    ensures forall k :: 0 <= k < |r| ==> r[k] == Column(BoardFilter(tasks, selected), AllStatuses()[k])
    ensures forall k, i :: 0 <= k < |r| && 0 <= i < |r[k]| ==> r[k][i].status == AllStatuses()[k]
    ensures forall t :: t in BoardFilter(tasks, selected) ==> t in r[StatusIndex(t.status)]
  {
    var shown := BoardFilter(tasks, selected);
    var statuses := AllStatuses();
    seq(|statuses|, k requires 0 <= k < |statuses| => Column(shown, statuses[k]))
  }

  /** The first two columns, Todo and InProgress. */
  predicate EarlyColumn(t: Task) {
    t.status == Todo || t.status == InProgress
  }

  predicate LateColumn(t: Task) {
    t.status == Review || t.status == Done
  }

  /** The four columns split the shown tasks: every task lands in exactly
      one column, none is lost and none is duplicated. */
  lemma ColumnsPartition(shown: seq<Task>)
    ensures multiset(Column(shown, Todo)) + multiset(Column(shown, InProgress))
          + multiset(Column(shown, Review)) + multiset(Column(shown, Done))
         == multiset(shown)
  {
    var early, late := Filter(shown, EarlyColumn), Filter(shown, LateColumn);
    FilterSplit(shown, EarlyColumn, LateColumn);
    FilterSplit(early, HasStatus(Todo), HasStatus(InProgress));
    FilterSplit(late, HasStatus(Review), HasStatus(Done));
    FilterNarrow(shown, EarlyColumn, HasStatus(Todo));
    FilterNarrow(shown, EarlyColumn, HasStatus(InProgress));
    FilterNarrow(shown, LateColumn, HasStatus(Review));
    FilterNarrow(shown, LateColumn, HasStatus(Done));
  }

  /** The same split, stated on the board itself. */
  lemma BoardPartition(tasks: seq<Task>, selected: string)
    ensures var c := Columns(tasks, selected);
      multiset(c[0]) + multiset(c[1]) + multiset(c[2]) + multiset(c[3])
        == multiset(BoardFilter(tasks, selected))
      && |c[0]| + |c[1]| + |c[2]| + |c[3]| == |BoardFilter(tasks, selected)|
  {
    var shown := BoardFilter(tasks, selected);
    ColumnsPartition(shown);
    ColumnsInOrder(tasks, selected);
    var c := Columns(tasks, selected);
    PartsAddUp(c[0], c[1], c[2], c[3], shown);
  }

  /** The board's columns are Todo, InProgress, Review and Done, in turn. */
  lemma ColumnsInOrder(tasks: seq<Task>, selected: string)
    ensures var c, shown := Columns(tasks, selected), BoardFilter(tasks, selected);
      c[0] == Column(shown, Todo) && c[1] == Column(shown, InProgress)
      && c[2] == Column(shown, Review) && c[3] == Column(shown, Done)
  {
    var c, shown := Columns(tasks, selected), BoardFilter(tasks, selected);
    assert c[0] == Column(shown, AllStatuses()[0]);
    assert c[1] == Column(shown, AllStatuses()[1]);
    assert c[2] == Column(shown, AllStatuses()[2]);
    assert c[3] == Column(shown, AllStatuses()[3]);
  }

  /** Four lists whose multisets add up to a fifth have lengths that add up
      to its length. */
  lemma PartsAddUp(a: seq<Task>, b: seq<Task>, c: seq<Task>, d: seq<Task>, whole: seq<Task>)
    requires multiset(a) + multiset(b) + multiset(c) + multiset(d) == multiset(whole)
    ensures |a| + |b| + |c| + |d| == |whole|
  {
    assert |multiset(a) + multiset(b) + multiset(c) + multiset(d)|
        == |multiset(a)| + |multiset(b)| + |multiset(c)| + |multiset(d)|;
  }

  /** A general task never shows on the board of a real project id, and a
      project's task never shows on the general board. The empty id is the
      exception: JavaScript treats `projectId: ""` as absent. */
  lemma GeneralAndProjectBoardsDisjoint(tasks: seq<Task>, selected: string)
    requires selected != GeneralSelector && selected != ""
    ensures forall t :: t in BoardFilter(tasks, GeneralSelector) ==> t !in BoardFilter(tasks, selected)
  {
  }

  /** After a project is deleted its board is empty. */
  lemma BoardEmptyAfterDelete(s: Store, id: string)
    requires id != GeneralSelector
    ensures BoardFilter(DeleteProjectCascade(s, id).tasks, id) == []
  {
    FilterDropsAll(DeleteProjectCascade(s, id).tasks, InsideProject(id));
  }

  /** Deleting a project leaves the general board exactly as it was. */
  lemma GeneralBoardSurvivesDelete(s: Store, id: string)
    requires id != ""
    ensures BoardFilter(DeleteProjectCascade(s, id).tasks, GeneralSelector)
         == BoardFilter(s.tasks, GeneralSelector)
  {
    FilterNarrow(s.tasks, OutsideProject(id), IsGeneral);
  }

  /** For example, with a general task `a` and a task `b` of p1, the
      general board shows only `a`. */
  lemma GeneralFilterExample(t: Task)
    ensures var a := t.(id := "a", projectId := None);
      var b := t.(id := "b", projectId := Some("p1"));
      BoardFilter([a, b], GeneralSelector) == [a]
  {
    var a := t.(id := "a", projectId := None);
    var b := t.(id := "b", projectId := Some("p1"));
    assert "p1" != "";
    assert [b][1..] == [];
    assert Filter([b], IsGeneral) == [];
    assert [a, b][1..] == [b];
  }
}
