/**
  Progress figures and the reports page's aggregates (App.tsx:97-101,
  296-332, 359, 371-373, 599-601).

  Every percentage in the source is `Math.round(part / whole * 100)` behind
  a guard that yields 0 for an empty whole. It is computed here exactly on
  integers; the floating-point error of the intermediate quotient is left
  out.
 */
module Reports {
  import opened Types
  import opened Seqs
  import opened Tasks
  import opened Projects

  // ------------------------------------------------------------ percentages

  /** `Math.round(part / whole * 100)`: the integer nearest to
      100 * part / whole, a half rounded up. */
  function RoundedPercent(part: nat, whole: nat): (r: nat)
    requires whole > 0
    ensures r * (2 * whole) <= 200 * part + whole < r * (2 * whole) + 2 * whole
    ensures part <= whole ==> r <= 100
    ensures part == 0 ==> r == 0
    ensures part == whole ==> r == 100
  {
    var r := (200 * part + whole) / (2 * whole);
    DivisionBounds(200 * part + whole, 2 * whole);
    RoundingFacts(part, whole, r);
    r
  }

  lemma DivisionBounds(n: nat, d: nat)
    requires d > 0
    ensures (n / d) * d <= n < (n / d) * d + d
  {
  }

  lemma MultiplyMonotonic(x: nat, y: nat, k: nat)
    requires x <= y
    ensures x * k <= y * k
  {
  }

  lemma MultiplyCancel(x: nat, y: nat, k: nat)
    requires x * k < y * k
    ensures x < y
  {
  }

  /** What the nearest-integer property pins down: at most 100 for a share
      of at most the whole, exactly 0 for none, exactly 100 for all. */
  lemma RoundingFacts(part: nat, whole: nat, r: nat)
    requires whole > 0
    requires r * (2 * whole) <= 200 * part + whole < r * (2 * whole) + 2 * whole
    ensures part <= whole ==> r <= 100
    ensures part == 0 ==> r == 0
    ensures part == whole ==> r == 100
  {
    if r >= 101 {
      MultiplyMonotonic(101, r, 2 * whole);
    }
    if r >= 1 {
      MultiplyMonotonic(1, r, 2 * whole);
    }
    if r <= 99 {
      MultiplyMonotonic(r, 99, 2 * whole);
    }
  }

  /** The guarded percentage: 0 for an empty whole, never a division by
      zero; all of it is 100 and none of it is 0. */
  function Percent(part: nat, whole: nat): (r: nat)
    requires part <= whole
    ensures whole == 0 ==> r == 0
    ensures r <= 100
    ensures part == 0 ==> r == 0
    ensures 0 < whole && part == whole ==> r == 100
    ensures whole > 0 ==> r * (2 * whole) <= 200 * part + whole < r * (2 * whole) + 2 * whole
  {
    if whole > 0 then RoundedPercent(part, whole) else 0
  }

  /** A larger share never rounds to a smaller percentage. */
  lemma PercentMonotonic(a: nat, b: nat, whole: nat)
    requires a <= b <= whole
    ensures Percent(a, whole) <= Percent(b, whole)
  {
    if whole > 0 {
      var ra, rb := Percent(a, whole), Percent(b, whole);
      assert ra * (2 * whole) < (rb + 1) * (2 * whole) by {
        assert (rb + 1) * (2 * whole) == rb * (2 * whole) + 2 * whole;
      }
      MultiplyCancel(ra, rb + 1, 2 * whole);
    }
  }

  // ---------------------------------------------------------- task progress

  function CompletedOf(s: Subtask): bool {
    s.completed
  }

  /** `calculateTaskProgress`: the rounded share of completed subtasks. With
      `done` the number of completed subtasks, the result is the integer
      nearest to 100 * done / |subs|, a half rounded up. */
  function TaskProgress(subs: seq<Subtask>): (r: nat)
    ensures |subs| == 0 ==> r == 0
    ensures r <= 100
    ensures |subs| > 0 && AllCompleted(subs) ==> r == 100
    ensures (forall i :: 0 <= i < |subs| ==> !subs[i].completed) ==> r == 0
    ensures |subs| > 0 ==> var done := multiset(Map(subs, CompletedOf))[true];
      r * (2 * |subs|) <= 200 * done + |subs| < r * (2 * |subs|) + 2 * |subs|
  {
    if |subs| == 0 then 0
    else
      CountExtremes(subs, IsCompleted);
      CountIsMultiplicity(subs, CompletedOf, true, IsCompleted);
      Percent(Count(subs, IsCompleted), |subs|)
  }

  /** Whenever a save forces a task to Done because of its subtasks, the
      task's progress bar reads 100. */
  lemma AutoCompletedTaskShowsFull(t: Task)
    requires t.status != Done && AutoComplete(t).status == Done
    ensures TaskProgress(AutoComplete(t).subtasks) == 100
  {
  }

  // ------------------------------------------------------- status, priority

  function HasPriority(p: Priority): Task -> bool {
    (t: Task) => t.priority == p
  }

  function StatusOf(t: Task): Status {
    t.status
  }

  function PriorityOf(t: Task): Priority {
    t.priority
  }

  /** The tasks with a status, counted, are its occurrences among the
      tasks' statuses. */
  lemma StatusCount(tasks: seq<Task>, st: Status)
    ensures Count(tasks, HasStatus(st)) == multiset(Map(tasks, StatusOf))[st]
  {
    CountIsMultiplicity(tasks, StatusOf, st, HasStatus(st));
  }

  /** The same for priorities. */
  lemma PriorityCount(tasks: seq<Task>, pr: Priority)
    ensures Count(tasks, HasPriority(pr)) == multiset(Map(tasks, PriorityOf))[pr]
  {
    CountIsMultiplicity(tasks, PriorityOf, pr, HasPriority(pr));
  }

  /** `statusData`: the chart's slices, Done first and Todo last; each
      slice's value is how often its status occurs among the tasks. */
  function StatusData(tasks: seq<Task>): (r: seq<(Status, nat)>)
    ensures |r| == 4
    ensures r[0].0 == Done && r[1].0 == InProgress && r[2].0 == Review && r[3].0 == Todo
    ensures var m := multiset(Map(tasks, StatusOf));
      r[0].1 == m[Done] && r[1].1 == m[InProgress] && r[2].1 == m[Review] && r[3].1 == m[Todo]
    ensures r[0].1 + r[1].1 + r[2].1 + r[3].1 == |tasks|
  {
    StatusCountsSum(tasks);
    StatusCount(tasks, Done);
    StatusCount(tasks, InProgress);
    StatusCount(tasks, Review);
    StatusCount(tasks, Todo);
    var done, inProgress := Count(tasks, HasStatus(Done)), Count(tasks, HasStatus(InProgress));
    var review, todo := Count(tasks, HasStatus(Review)), Count(tasks, HasStatus(Todo));
    [(Done, done), (InProgress, inProgress), (Review, review), (Todo, todo)]
  }

  /** The four status counts add up to the number of tasks. */
  lemma {:induction false} StatusCountsSum(tasks: seq<Task>)
    ensures Count(tasks, HasStatus(Done)) + Count(tasks, HasStatus(InProgress))
          + Count(tasks, HasStatus(Review)) + Count(tasks, HasStatus(Todo)) == |tasks|
  {
    if |tasks| > 0 {
      StatusCountsSum(tasks[1..]);
      CountCons(tasks, HasStatus(Done));
      CountCons(tasks, HasStatus(InProgress));
      CountCons(tasks, HasStatus(Review));
      CountCons(tasks, HasStatus(Todo));
    }
  }

  /** The four priority counts add up to the number of tasks. */
  lemma {:induction false} PriorityCountsSum(tasks: seq<Task>)
    ensures Count(tasks, HasPriority(Critical)) + Count(tasks, HasPriority(High))
          + Count(tasks, HasPriority(Medium)) + Count(tasks, HasPriority(Low)) == |tasks|
  {
    if |tasks| > 0 {
      PriorityCountsSum(tasks[1..]);
      CountCons(tasks, HasPriority(Critical));
      CountCons(tasks, HasPriority(High));
      CountCons(tasks, HasPriority(Medium));
      CountCons(tasks, HasPriority(Low));
    }
  }

  /** `priorityData`: the bars, Critical first and Low last; each bar's
      value is how often its priority occurs among the tasks. */
  function PriorityData(tasks: seq<Task>): (r: seq<(Priority, nat)>)
    ensures |r| == 4
    ensures r[0].0 == Critical && r[1].0 == High && r[2].0 == Medium && r[3].0 == Low
    ensures var m := multiset(Map(tasks, PriorityOf));
      r[0].1 == m[Critical] && r[1].1 == m[High] && r[2].1 == m[Medium] && r[3].1 == m[Low]
    ensures r[0].1 + r[1].1 + r[2].1 + r[3].1 == |tasks|
  {
    PriorityCountsSum(tasks);
    PriorityCount(tasks, Critical);
    PriorityCount(tasks, High);
    PriorityCount(tasks, Medium);
    PriorityCount(tasks, Low);
    var critical, high := Count(tasks, HasPriority(Critical)), Count(tasks, HasPriority(High));
    var medium, low := Count(tasks, HasPriority(Medium)), Count(tasks, HasPriority(Low));
    [(Critical, critical), (High, high), (Medium, medium), (Low, low)]
  }

  // --------------------------------------------------------- completion

  /** The overall completion card: the rounded share of Done tasks, 0 when
      there are no tasks; the nearest integer to 100 * done / |tasks|. */
  function OverallCompletion(tasks: seq<Task>): (r: nat)
    ensures |tasks| == 0 ==> r == 0
    ensures r <= 100
    ensures (forall i :: 0 <= i < |tasks| ==> tasks[i].status != Done) ==> r == 0
    ensures |tasks| > 0 && (forall i :: 0 <= i < |tasks| ==> tasks[i].status == Done) ==> r == 100
    ensures |tasks| > 0 ==> var done := multiset(Map(tasks, StatusOf))[Done];
      r * (2 * |tasks|) <= 200 * done + |tasks| < r * (2 * |tasks|) + 2 * |tasks|
  {
    CountExtremes(tasks, HasStatus(Done));
    StatusCount(tasks, Done);
    Percent(Count(tasks, HasStatus(Done)), |tasks|)
  }

  /** One project's progress: the rounded share of its tasks that are Done,
      0 for a project without tasks. */
  function ProjectProgress(tasks: seq<Task>, projectId: string): (r: nat)
    ensures r <= 100
    ensures (forall i :: 0 <= i < |tasks| ==> tasks[i].projectId != Some(projectId)) ==> r == 0
    ensures (exists i :: 0 <= i < |tasks| && tasks[i].projectId == Some(projectId))
      && (forall i :: 0 <= i < |tasks| && tasks[i].projectId == Some(projectId) ==> tasks[i].status == Done)
      ==> r == 100
    ensures r == OverallCompletion(Filter(tasks, InsideProject(projectId)))
    ensures var inside := Filter(tasks, InsideProject(projectId));
      |inside| > 0 ==> var done := multiset(Map(inside, StatusOf))[Done];
      r * (2 * |inside|) <= 200 * done + |inside| < r * (2 * |inside|) + 2 * |inside|
  {
    CountExtremes(tasks, InsideProject(projectId));
    OverallCompletion(Filter(tasks, InsideProject(projectId)))
  }

  /** `projectProgressData`: one entry per project, in list order. */
  function ProjectProgressData(projects: seq<Project>, tasks: seq<Task>): (r: seq<(string, nat)>)
    ensures |r| == |projects|
    ensures forall i :: 0 <= i < |r| ==> r[i].0 == projects[i].name && r[i].1 <= 100
    ensures forall i :: 0 <= i < |r| ==> r[i].1 == ProjectProgress(tasks, projects[i].id)
  {
    seq(|projects|, i requires 0 <= i < |projects| =>
      (projects[i].name, ProjectProgress(tasks, projects[i].id)))
  }

  // --------------------------------------------------------------- points

  /** `reduce((acc, t) => acc + t.points, 0)`: with no negative estimates
      the total is never negative and is at least every single estimate. */
  function SumPoints(tasks: seq<Task>): (total: int)
    ensures (forall i :: 0 <= i < |tasks| ==> tasks[i].points >= 0) ==>
      total >= 0 && forall i :: 0 <= i < |tasks| ==> tasks[i].points <= total
  {
    if |tasks| == 0 then 0 else tasks[0].points + SumPoints(tasks[1..])
  }

  /** The fold adds up piecewise: the total of two lists is the sum of their
      totals. */
  lemma {:induction false} SumPointsConcat(a: seq<Task>, b: seq<Task>)
    ensures SumPoints(a + b) == SumPoints(a) + SumPoints(b)
  {
    if |a| == 0 {
      assert a + b == b;
    } else {
      SumPointsConcat(a[1..], b);
      assert (a + b)[1..] == a[1..] + b;
    }
  }

  /** The total is the left fold of the source: 0 for no tasks, and otherwise
      the total of all but the last task plus the last task's estimate. */
  lemma {:induction false} SumPointsFold(tasks: seq<Task>)
    ensures |tasks| == 0 ==> SumPoints(tasks) == 0
    ensures |tasks| > 0 ==>
      SumPoints(tasks) == SumPoints(tasks[..|tasks| - 1]) + tasks[|tasks| - 1].points
  {
    if |tasks| > 0 {
      var init, last := tasks[..|tasks| - 1], tasks[|tasks| - 1];
      assert tasks == init + [last];
      SumPointsConcat(init, [last]);
      assert [last][1..] == [];
    }
  }

  /** The points of the Done tasks plus those of the rest are all the
      points; so with no negative estimates the completed points never
      exceed the total. */
  lemma {:induction false} DonePointsSplit(tasks: seq<Task>)
    ensures SumPoints(Filter(tasks, HasStatus(Done))) + SumPoints(Filter(tasks, NotDone))
         == SumPoints(tasks)
  {
    if |tasks| > 0 {
      DonePointsSplit(tasks[1..]);
    }
  }

  function NotDone(t: Task): bool {
    t.status != Done
  }

  /** With no negative estimates, any selection of tasks has a
      non-negative point sum. */
  lemma {:induction false} SelectedPointsNonNegative(tasks: seq<Task>, p: Task -> bool)
    requires forall i :: 0 <= i < |tasks| ==> tasks[i].points >= 0
    ensures SumPoints(Filter(tasks, p)) >= 0
  {
    if |tasks| > 0 {
      SelectedPointsNonNegative(tasks[1..], p);
    }
  }

  lemma DonePointsBounded(tasks: seq<Task>)
    requires forall i :: 0 <= i < |tasks| ==> tasks[i].points >= 0
    ensures 0 <= SumPoints(Filter(tasks, HasStatus(Done))) <= SumPoints(tasks)
  {
    DonePointsSplit(tasks);
    SelectedPointsNonNegative(tasks, HasStatus(Done));
    SelectedPointsNonNegative(tasks, NotDone);
  }

  // ---------------------------------------------------------- per user

  /** `name.split(' ')[0]`: the text before the first space, or all of it. */
  function FirstWord(name: string): (w: string)
    ensures |w| <= |name| && w == name[..|w|]
    ensures ' ' !in w
    ensures |w| < |name| ==> name[|w|] == ' '
  {
    if |name| == 0 || name[0] == ' ' then ""
    else [name[0]] + FirstWord(name[1..])
  }

  function AssignedTo(userId: string): Task -> bool {
    (t: Task) => t.assignee == Some(userId)
  }

  /** The user's Done tasks, in one filter. */
  function AssignedAndDone(userId: string): Task -> bool {
    (t: Task) => t.assignee == Some(userId) && t.status == Done
  }

  datatype Performance = Performance(name: string, completed: nat, active: nat)

  /** One chart entry: the user's first name, the Done tasks among those
      assigned to the user, and the rest of them. */
  function UserEntry(user: User, tasks: seq<Task>): (e: Performance)
    ensures e.name == FirstWord(user.name)
    ensures e.completed == Count(tasks, AssignedAndDone(user.id))
    ensures e.completed + e.active == Count(tasks, AssignedTo(user.id))
  {
    var mine := Filter(tasks, AssignedTo(user.id));
    var completed := Count(mine, HasStatus(Done));
    FilterCongruent(mine, HasStatus(Done), AssignedAndDone(user.id));
    FilterNarrow(tasks, AssignedTo(user.id), AssignedAndDone(user.id));
    Performance(FirstWord(user.name), completed, |mine| - completed)
  }

  /** The chart's display cap: the first ten users. */
  const ChartUsers := 10

  /** `userPerformanceData`: for each of the first ten users, the Done and
      the not-Done counts among the tasks assigned to them. */
  function UserPerformance(users: seq<User>, tasks: seq<Task>): (r: seq<Performance>)
    ensures |r| == if |users| < ChartUsers then |users| else ChartUsers
    ensures forall i :: 0 <= i < |r| ==> r[i].name == FirstWord(users[i].name)
    ensures forall i :: 0 <= i < |r| ==> r[i].completed == Count(tasks, AssignedAndDone(users[i].id))
    ensures forall i :: 0 <= i < |r| ==>
      r[i].completed + r[i].active == Count(tasks, AssignedTo(users[i].id))
  {
    var shown := if |users| < ChartUsers then users else users[..ChartUsers];
    seq(|shown|, i requires 0 <= i < |shown| => UserEntry(shown[i], tasks))
  }
}
