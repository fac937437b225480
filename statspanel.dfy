/**
 * The stats panel: work sessions ended today and in the last seven days, and
 * the tasks completed today and of all time.
 *
 * The local time zone is a fixed offset from UTC in milliseconds
 * (`utcOffset`); daylight-saving changes are not modelled.
 */
module StatsPanel {
  import opened Nullable
  import opened AppProvider

  const DayMs := 24 * 60 * 60 * 1000

  /** `startOfDay`: the local midnight at or before `ts`. */
  function StartOfDay(ts: int, utcOffset: int): (r: int)
    ensures r <= ts < r + DayMs
    ensures (r + utcOffset) % DayMs == 0
  {
    ts - (ts + utcOffset) % DayMs
  }

  /** `isSameDay`: both instants fall on the same local calendar day (counted in whole days since the epoch). */
  function IsSameDay(a: int, b: int, utcOffset: int): (same: bool)
    ensures same <==> (a + utcOffset) / DayMs == (b + utcOffset) / DayMs
  {
    DayIndex(a, utcOffset);
    DayIndex(b, utcOffset);
    StartOfDay(a, utcOffset) == StartOfDay(b, utcOffset)
  }

  /** The start of a day is its local day number times the length of a day, shifted back to UTC. */
  lemma DayIndex(ts: int, utcOffset: int)
    ensures StartOfDay(ts, utcOffset) + utcOffset == (ts + utcOffset) / DayMs * DayMs
  {
  }

  /** `day7`: the start of the week window, six whole days before the start of today. */
  function WeekStart(now: int, utcOffset: int): (r: int)
    ensures r == StartOfDay(now, utcOffset) - 6 * DayMs
    ensures r <= now - 6 * DayMs && now - r < 7 * DayMs
  {
    StartOfDay(now, utcOffset) - 6 * DayMs
  }

  predicate CountsToday(s: Session, now: int, utcOffset: int) {
    s.kind == Work && IsSameDay(s.end, now, utcOffset)
  }

  predicate CountsThisWeek(s: Session, now: int, utcOffset: int) {
    s.kind == Work && s.end >= WeekStart(now, utcOffset)
  }

  /**
   * `todaySessions`: the work sessions that ended on today's date, in log
   * order; each qualifying session is kept as often as it is logged and no
   * other session is kept, so its length is the number of qualifying entries.
   */
  function TodaySessions(sessions: seq<Session>, now: int, utcOffset: int): (r: seq<Session>)
    ensures |r| <= |sessions|
    ensures forall s :: s in r <==> s in sessions && CountsToday(s, now, utcOffset)
    ensures forall s :: multiset(r)[s] == if CountsToday(s, now, utcOffset) then multiset(sessions)[s] else 0
  {
    if sessions == [] then []
    else
      var head := if CountsToday(sessions[0], now, utcOffset) then [sessions[0]] else [];
      var rest := TodaySessions(sessions[1..], now, utcOffset);
      assert sessions == [sessions[0]] + sessions[1..];
      assert multiset(head + rest) == multiset(head) + multiset(rest);
      head + rest
  }

  /**
   * `weekSessions`: the work sessions that ended since the start of the week
   * window, each kept as often as it is logged.
   */
  function WeekSessions(sessions: seq<Session>, now: int, utcOffset: int): (r: seq<Session>)
    ensures |r| <= |sessions|
    ensures forall s :: s in r <==> s in sessions && CountsThisWeek(s, now, utcOffset)
    ensures forall s :: multiset(r)[s] == if CountsThisWeek(s, now, utcOffset) then multiset(sessions)[s] else 0
  {
    if sessions == [] then []
    else
      var head := if CountsThisWeek(sessions[0], now, utcOffset) then [sessions[0]] else [];
      var rest := WeekSessions(sessions[1..], now, utcOffset);
      assert sessions == [sessions[0]] + sessions[1..];
      assert multiset(head + rest) == multiset(head) + multiset(rest);
      head + rest
  }

  /** A session that ended today ended inside the week window. */
  lemma TodayIsInWeek(s: Session, now: int, utcOffset: int)
    requires CountsToday(s, now, utcOffset)
    ensures CountsThisWeek(s, now, utcOffset)
  {
    assert s.end >= StartOfDay(s.end, utcOffset) == StartOfDay(now, utcOffset);
  }

  /** Today's pomodoro count never exceeds this week's. */
  lemma {:induction false} TodayAtMostWeek(sessions: seq<Session>, now: int, utcOffset: int)
    ensures |TodaySessions(sessions, now, utcOffset)| <= |WeekSessions(sessions, now, utcOffset)|
  {
    if sessions != [] {
      TodayAtMostWeek(sessions[1..], now, utcOffset);
      if CountsToday(sessions[0], now, utcOffset) {
        TodayIsInWeek(sessions[0], now, utcOffset);
      }
    }
  }

  predicate WorkedToday(t: Task, today: seq<Session>) {
    exists s :: s in today && s.taskId == Some(t.id)
  }

  /**
   * `tasksCompletedToday`: the Completed tasks with a work session today;
   * never more than the Completed tasks of all time.
   */
  function TasksCompletedToday(tasks: seq<Task>, today: seq<Session>): (n: nat)
    ensures n <= CountStatus(tasks, Completed)
  {
    if tasks == [] then 0
    else (if tasks[0].status == Completed && WorkedToday(tasks[0], today) then 1 else 0)
         + TasksCompletedToday(tasks[1..], today)
  }

  datatype Stats = Stats(todayPomodoros: nat, todayTasksCompleted: nat, weekPomodoros: nat, completedAllTime: nat)

  /** The panel's figures, each bounded by the list it counts, today within the week. */
  function StatsOf(sessions: seq<Session>, tasks: seq<Task>, now: int, utcOffset: int): (r: Stats)
    ensures var today := TodaySessions(sessions, now, utcOffset);
            && r.todayPomodoros == |today| && r.weekPomodoros == |WeekSessions(sessions, now, utcOffset)|
            && r.todayTasksCompleted == TasksCompletedToday(tasks, today)
            && r.completedAllTime == CountStatus(tasks, Completed)
    ensures r.todayPomodoros <= r.weekPomodoros <= |sessions|
    ensures r.todayTasksCompleted <= r.completedAllTime <= |tasks|
  {
    var today := TodaySessions(sessions, now, utcOffset);
    var week := WeekSessions(sessions, now, utcOffset);
    TodayAtMostWeek(sessions, now, utcOffset);
    Stats(|today|, TasksCompletedToday(tasks, today), |week|, CountStatus(tasks, Completed))
  }

  /**
   * The completed-today count is additive over concatenation of the task
   * list, and a single task counts one exactly when it is Completed and has a
   * work session today.
   */
  lemma {:induction false} TasksCompletedTodayConcat(a: seq<Task>, b: seq<Task>, t: Task, today: seq<Session>)
    ensures TasksCompletedToday(a + b, today) == TasksCompletedToday(a, today) + TasksCompletedToday(b, today)
    ensures TasksCompletedToday([t], today) == if t.status == Completed && WorkedToday(t, today) then 1 else 0
  {
    if a == [] {
      assert a + b == b;
    } else {
      assert (a + b)[0] == a[0];
      assert (a + b)[1..] == a[1..] + b;
      TasksCompletedTodayConcat(a[1..], b, t, today);
    }
    assert [t][1..] == [];
  }
}
