/**
  The timeline view (App.tsx:1038-1066, 1344-1347): a 61-day axis from
  fifteen days before today to forty-five days after, and for each dated
  task a bar whose offset and length are measured in days.

  Instants are integer milliseconds; "today" and "now" (the source's
  `new Date()`) are parameters. Day counts are exact reals: an instant that
  is not a whole number of days from the axis start gives a fractional
  offset, as in the source. The scaling of days to pixels is left out.
 */
module Timeline {
  import opened Types
  import opened Seqs

  /** `24 * 60 * 60 * 1000`. */
  const DayMs: int := 86400000

  /** Days shown before and after today. */
  const DaysBefore: int := 15
  const DaysAfter: int := 45

  /** Where the axis starts, given today's instant. */
  function AxisStart(today: int): int {
    today - DaysBefore * DayMs
  }

  /** The axis days, `for (d = timelineStart; d <= timelineEnd; d += 1 day)`.
      Every day is a whole number of days from today, from fifteen before
      to forty-five after, in order. */
  method AxisDays(today: int) returns (days: seq<int>)
    ensures |days| == DaysBefore + DaysAfter + 1
    ensures forall k :: 0 <= k < |days| ==> days[k] == AxisStart(today) + k * DayMs
    ensures days[0] == AxisStart(today) && days[|days| - 1] == today + DaysAfter * DayMs
  {
    var end := today + DaysAfter * DayMs;
    var d := AxisStart(today);
    days := [];
    while d <= end
      invariant d == AxisStart(today) + |days| * DayMs
      invariant |days| <= DaysBefore + DaysAfter + 1
      invariant forall k :: 0 <= k < |days| ==> days[k] == AxisStart(today) + k * DayMs
      decreases end - d
    {
      days := days + [d];
      d := d + DayMs;
    }
  }

  /** A bar's placement in days: `leftDays` and `durationDays`. */
  datatype Bar = Bar(offsetDays: real, durationDays: real)

  /** `getTaskStyle`: a missing start means now; a missing due date means
      one day after the start; the duration is never shorter than a day. */
  function TaskBar(startDate: Option<int>, dueDate: Option<int>, axisStart: int, now: int): (b: Bar)
    ensures var start := startDate.GetOr(now);
      b.offsetDays * DayMs as real == (start - axisStart) as real
    ensures b.durationDays >= 1.0
    ensures var start := startDate.GetOr(now);
      var end := dueDate.GetOr(start + DayMs);
      (end - start >= DayMs ==> b.durationDays * DayMs as real == (end - start) as real)
      && (end - start < DayMs ==> b.durationDays == 1.0)
  {
    var start := startDate.GetOr(now);
    var end := dueDate.GetOr(start + DayMs);
    var leftDays := (start - axisStart) as real / DayMs as real;
    var durationDays := (end - start) as real / DayMs as real;
    Bar(leftDays, if durationDays < 1.0 then 1.0 else durationDays)
  }

  /** A task with a start but no due date is drawn one day long. */
  lemma NoDueDateIsOneDay(start: int, axisStart: int, now: int)
    ensures TaskBar(Some(start), None, axisStart, now).durationDays == 1.0
  {
  }

  /** A task starting on the k-th axis day is drawn at offset k, and one
      ending n whole days later (n at least one) is n days long. */
  lemma BarOnAxisDay(today: int, k: int, n: int, now: int)
    requires n >= 1
    ensures var start := AxisStart(today) + k * DayMs;
      TaskBar(Some(start), Some(start + n * DayMs), AxisStart(today), now) == Bar(k as real, n as real)
  {
    var start := AxisStart(today) + k * DayMs;
    var b := TaskBar(Some(start), Some(start + n * DayMs), AxisStart(today), now);
    assert (k * DayMs) as real == k as real * DayMs as real;
    assert (n * DayMs) as real == n as real * DayMs as real;
  }

  /** For example, a task that starts on the axis start and is due four
      days later sits at offset 0 with duration 4. */
  lemma AxisStartExample(axisStart: int, now: int)
    ensures TaskBar(Some(axisStart), Some(axisStart + 4 * DayMs), axisStart, now) == Bar(0.0, 4.0)
  {
  }

  /** Whether a task is drawn: a task with neither a start nor a due date
      (`!task.startDate && !task.dueDate`) is left off the timeline. */
  function IsDated(t: Task): (drawn: bool)
    ensures !drawn <==> t.startDate == None && t.dueDate == None
  {
    t.startDate.Some? || t.dueDate.Some?
  }

  datatype Row = Row(task: Task, bar: Bar)

  function RowTask(row: Row): Task {
    row.task
  }

  /** A task's row on a given axis. */
  function RowOf(axisStart: int, now: int): Task -> Row {
    (t: Task) => Row(t, TaskBar(t.startDate, t.dueDate, axisStart, now))
  }

  /** The timeline body: one row per dated task, in board order, each
      carrying its own task's bar; undated tasks are skipped. */
  function TimelineRows(shown: seq<Task>, axisStart: int, now: int): (rows: seq<Row>)
    ensures Map(rows, RowTask) == Filter(shown, IsDated)
    ensures |rows| == Count(shown, IsDated)
    ensures forall i :: 0 <= i < |rows| ==>
      rows[i].bar == TaskBar(rows[i].task.startDate, rows[i].task.dueDate, axisStart, now)
    ensures forall i :: 0 <= i < |rows| ==> rows[i].task in shown && IsDated(rows[i].task)
    ensures forall i :: 0 <= i < |rows| ==> rows[i].bar.durationDays >= 1.0
    ensures forall i :: 0 <= i < |shown| && IsDated(shown[i]) ==>
      Row(shown[i], TaskBar(shown[i].startDate, shown[i].dueDate, axisStart, now)) in rows
  {
    var dated := Filter(shown, IsDated);
    var rows := Map(dated, RowOf(axisStart, now));
    var tasks := Map(rows, RowTask);
    assert forall i :: 0 <= i < |tasks| ==> tasks[i] == dated[i];
    assert forall i :: 0 <= i < |shown| && IsDated(shown[i]) ==>
      exists j :: 0 <= j < |dated| && dated[j] == shown[i];
    rows
  }

  /** The rows of two lists of tasks, one after the other, are the rows of
      each: the timeline keeps the board's order. */
  lemma TimelineRowsConcat(a: seq<Task>, b: seq<Task>, axisStart: int, now: int)
    ensures TimelineRows(a + b, axisStart, now)
         == TimelineRows(a, axisStart, now) + TimelineRows(b, axisStart, now)
  {
    FilterConcat(a, b, IsDated);
    MapConcat(Filter(a, IsDated), Filter(b, IsDated), RowOf(axisStart, now));
  }
}
