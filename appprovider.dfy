/**
 * The application provider: the five state slices (tasks, sessions, settings,
 * ui, timer), the Pomodoro timer and session state machine that drives them,
 * and the task registry commands.
 *
 * Wall-clock readings (`Date.now()`) are the `now` parameter, an instant after
 * the epoch in milliseconds; fresh identifiers (`uid()`) are a parameter too.
 */
module AppProvider {
  import opened Nullable
  import opened JsText

  type TaskId = string

  /** A reading of `Date.now()`: milliseconds after the epoch. */
  type Instant = t: int | t > 0 witness 1

  datatype Mode = Work | Short | Long

  datatype Status = Pending | InProgress | Completed

  datatype Task = Task(
    id: TaskId,
    title: string,
    description: string,
    estimate: int,
    status: Status,
    completedSessions: nat)

  /** One entry of the session log; `kind` is the source's `type` field. */
  datatype Session = Session(id: string, taskId: Option<TaskId>, kind: Mode, start: int, end: int)

  datatype Settings = Settings(
    workMinutes: int,
    shortBreakMinutes: int,
    longBreakMinutes: int,
    longBreakEvery: int,
    sound: bool)

  datatype TimerState = TimerState(
    mode: Mode,
    isRunning: bool,
    isPaused: bool,
    endTime: Option<int>,
    remaining: nat,
    currentTaskId: Option<TaskId>,
    cycleCount: nat,
    lastStart: Option<int>)

  /** The ui slice; `intendedNextMode` also stands for the field being absent. */
  datatype Ui = Ui(darkMode: bool, showSettings: bool, showEndPrompt: bool, intendedNextMode: Option<Mode>)

  /** The title, description and estimate a task form holds (add and edit alike). */
  datatype TaskForm = TaskForm(title: string, description: string, estimate: int)

  const DefaultSettings := Settings(25, 5, 15, 4, true)

  /** The record the timer starts from and `reset` returns to. */
  const IdleTimer := TimerState(Work, false, false, None, 0, None, 0, None)

  /** JavaScript truthiness of a stored timestamp: `null` and `0` are both falsy. */
  predicate IsSetTime(t: Option<int>) {
    t.Some? && t.value != 0
  }

  /** JavaScript truthiness of `currentTaskId`: `null` and `''` are both falsy. */
  predicate HasTaskId(id: Option<TaskId>) {
    id.Some? && id.value != ""
  }

  // ---------------------------------------------------------------------------
  // Durations, remaining time and the break cadence
  // ---------------------------------------------------------------------------

  /** The minutes setting that belongs to a mode. */
  function MinutesFor(s: Settings, m: Mode): int {
    match m
    case Work => s.workMinutes
    case Short => s.shortBreakMinutes
    case Long => s.longBreakMinutes
  }

  /** `getModeDurationSec`: a whole number of minutes, at least one, in seconds. */
  function ModeDurationSec(s: Settings, m: Mode): (r: int)
    ensures r >= 60 && r % 60 == 0
    ensures MinutesFor(s, m) >= 1 ==> r == MinutesFor(s, m) * 60
    ensures MinutesFor(s, m) < 1 ==> r == 60
  {
    AtLeastOne(MinutesFor(s, m)) * 60
  }

  /**
   * The `diff` of the poll: `max(0, Math.round((endTime - now) / 1000))`.
   * `Math.round(x)` is `floor(x + 1/2)`, so the rounded quotient is
   * `floor((d + 500) / 1000)`; Dafny's `/` is floor division for a positive divisor.
   */
  function RemainingSec(endTime: int, now: int): (r: nat)
    ensures r == 0 <==> endTime - now < 500
    ensures r > 0 ==> r * 1000 - 500 <= endTime - now < r * 1000 + 500
  {
    var q := (endTime - now + 500) / 1000;
    if q < 0 then 0 else q
  }

  /** Time only runs down: a later reading never shows more remaining seconds. */
  lemma RemainingNonIncreasing(endTime: int, now1: int, now2: int)
    requires now1 <= now2
    ensures RemainingSec(endTime, now2) <= RemainingSec(endTime, now1)
  {
  }

  /** Reading the timer at the instant an end time was set from `r` seconds gives back `r`. */
  lemma RemainingAtSetInstant(now: int, r: nat)
    ensures RemainingSec(now + r * 1000, now) == r
  {
  }

  /** Being away for `b` whole seconds takes exactly `b` seconds off, down to zero. */
  lemma RemainingAfterAbsence(endTime: int, now: int, b: nat)
    ensures RemainingSec(endTime, now + b * 1000) == if RemainingSec(endTime, now) >= b then RemainingSec(endTime, now) - b else 0
  {
    var d := endTime - now + 500;
    assert endTime - (now + b * 1000) + 500 == d - b * 1000;
    assert (d - b * 1000) / 1000 == d / 1000 - b;
  }

  /** The break a finished work session leads to: long on every `longBreakEvery`-th cycle. */
  function NextBreak(cycleCount: nat, longBreakEvery: int): (m: Mode)
    ensures m != Work
    ensures m == Long <==> (cycleCount + 1) % AtLeastOne(longBreakEvery) == 0
  {
    if (cycleCount + 1) % AtLeastOne(longBreakEvery) == 0 then Long else Short
  }

  /**
   * With a cadence of `n` cycles, the work session that completes cycle `k * n`
   * leads to a long break and the `n - 1` after it lead to short ones.
   */
  lemma {:induction false} LongBreakCadence(k: nat, j: nat, n: int)
    requires n >= 1 && k >= 1 && j < n
    ensures NextBreak(k * n - 1 + j, n) == if j == 0 then Long else Short
  {
    assert k * n + j == (k * n) + j;
    assert (k * n + j) % n == j % n by {
      ModAddMultiple(j, k, n);
    }
  }

  lemma ModAddMultiple(j: nat, k: nat, n: int)
    requires n >= 1
    ensures (k * n + j) % n == j % n
  {
    ModUnique(k * n + j, k + j / n, j % n, n);
  }

  /** Euclidean division has one remainder: the `%` of the source on non-negative operands. */
  lemma ModUnique(y: int, a: int, r: int, n: int)
    requires n >= 1 && 0 <= r < n && y == a * n + r
    ensures y % n == r
  {
    var a', r' := y / n, y % n;
    assert (a - a') * n == r' - r;
    if a > a' {
      MulAtLeast(a - a', n);
    } else if a < a' {
      MulAtLeast(a' - a, n);
    }
  }

  lemma MulAtLeast(c: int, n: int)
    requires c >= 1 && n >= 1
    ensures c * n >= n
  {
  }

  /** The condition under which the poll and the visibility handler recompute `remaining`. */
  predicate Ticking(t: TimerState) {
    t.isRunning && IsSetTime(t.endTime) && !t.isPaused
  }

  predicate CanPause(t: TimerState) {
    t.isRunning && !t.isPaused
  }

  /** The timer's invariant: a paused timer is running, and a running timer has an end time. */
  predicate TimerInvariant(t: TimerState) {
    (t.isPaused ==> t.isRunning) && (t.isRunning ==> IsSetTime(t.endTime))
  }

  /**
   * Under the invariant, the poll runs exactly when the timer can be paused:
   * the Pause button is shown exactly while the remaining time is recomputed.
   */
  lemma PollRunsIffPausable(t: TimerState)
    requires TimerInvariant(t)
    ensures Ticking(t) <==> CanPause(t)
  {
  }

  predicate CanResume(t: TimerState) {
    t.isRunning && t.isPaused
  }

  // ---------------------------------------------------------------------------
  // The task registry as values: the map, filter and spread transforms
  // ---------------------------------------------------------------------------

  /** `tasks.find((t) => t.id === id)`: the first task with that id. */
  function FindTask(tasks: seq<Task>, id: TaskId): (r: Option<Task>)
    ensures r.None? <==> forall i :: 0 <= i < |tasks| ==> tasks[i].id != id
    ensures r.Some? ==> exists i :: 0 <= i < |tasks| && tasks[i] == r.value && r.value.id == id
                                    && forall j :: 0 <= j < i ==> tasks[j].id != id
  {
    if tasks == [] then None
    else if tasks[0].id == id then Some(tasks[0])
    else
      var r := FindTask(tasks[1..], id);
      assert r.Some? ==> exists i :: 1 <= i < |tasks| && tasks[i] == r.value && r.value.id == id
                                    && forall j :: 0 <= j < i ==> tasks[j].id != id by {
        if r.Some? {
          var i :| 0 <= i < |tasks| - 1 && tasks[1..][i] == r.value && r.value.id == id
                   && forall j :: 0 <= j < i ==> tasks[1..][j].id != id;
          assert tasks[i + 1] == r.value;
          forall j | 0 <= j < i + 1 ensures tasks[j].id != id {
            if j > 0 { assert tasks[j] == tasks[1..][j - 1]; }
          }
        }
      }
      r
  }

  /** The provider's `currentTask`: the task the timer refers to, if it still exists. */
  function CurrentTask(tasks: seq<Task>, current: Option<TaskId>): (r: Option<Task>)
    ensures r.Some? ==> r.value in tasks && current == Some(r.value.id)
    ensures current.Some? && (exists i :: 0 <= i < |tasks| && tasks[i].id == current.value) ==> r.Some?
  {
    if current.None? then None else FindTask(tasks, current.value)
  }

  /** `prev.map((t) => (t.id === id ? f(t) : t))`, the shape of every per-task update. */
  function MapById(tasks: seq<Task>, id: TaskId, f: Task -> Task): (r: seq<Task>)
    ensures |r| == |tasks|
    ensures forall i :: 0 <= i < |tasks| ==> r[i] == if tasks[i].id == id then f(tasks[i]) else tasks[i]
  {
    if tasks == [] then []
    else [if tasks[0].id == id then f(tasks[0]) else tasks[0]] + MapById(tasks[1..], id, f)
  }

  function Promote(t: Task): Task {
    if t.status == Pending then t.(status := InProgress) else t
  }

  /** The task update of `startForTask`: only the started task may move, and only from Pending to In Progress. */
  function StartTasks(tasks: seq<Task>, id: TaskId): (r: seq<Task>)
    ensures |r| == |tasks|
    ensures forall i :: 0 <= i < |tasks| ==> r[i].(status := tasks[i].status) == tasks[i]
    ensures forall i :: 0 <= i < |tasks| ==>
              (r[i].status != tasks[i].status <==> tasks[i].id == id && tasks[i].status == Pending)
    ensures forall i :: 0 <= i < |tasks| && r[i].status != tasks[i].status ==> r[i].status == InProgress
  {
    MapById(tasks, id, Promote)
  }

  function Credit(t: Task): Task {
    t.(completedSessions := t.completedSessions + 1,
       status := if t.completedSessions + 1 >= t.estimate then Completed else t.status)
  }

  /**
   * The task update of `completeWorkSession`: the task worked on gains one
   * session and becomes Completed once the count reaches its estimate;
   * every other task is untouched.
   */
  function CreditTasks(tasks: seq<Task>, id: TaskId): (r: seq<Task>)
    ensures |r| == |tasks|
    ensures forall i :: 0 <= i < |tasks| && tasks[i].id != id ==> r[i] == tasks[i]
    ensures forall i :: 0 <= i < |tasks| && tasks[i].id == id ==>
              && r[i].completedSessions == tasks[i].completedSessions + 1
              && (r[i].status == Completed <==> tasks[i].completedSessions + 1 >= tasks[i].estimate || tasks[i].status == Completed)
              && (r[i].status != Completed ==> r[i].status == tasks[i].status)
              && r[i].(status := tasks[i].status, completedSessions := tasks[i].completedSessions) == tasks[i]
  {
    MapById(tasks, id, Credit)
  }

  function Edit(t: Task, e: TaskForm): Task {
    t.(title := e.title, description := e.description, estimate := e.estimate)
  }

  /** The task update of `updateTask` with an edit form: the matching tasks take the form's three fields. */
  function EditTasks(tasks: seq<Task>, id: TaskId, e: TaskForm): (r: seq<Task>)
    ensures |r| == |tasks|
    ensures forall i :: 0 <= i < |tasks| && tasks[i].id != id ==> r[i] == tasks[i]
    ensures forall i :: 0 <= i < |tasks| && tasks[i].id == id ==>
              && r[i].title == e.title && r[i].description == e.description && r[i].estimate == e.estimate
              && r[i].id == id && r[i].status == tasks[i].status
              && r[i].completedSessions == tasks[i].completedSessions
  {
    MapById(tasks, id, t => Edit(t, e))
  }

  /** `prev.filter((t) => t.id !== id)`. */
  function WithoutTask(tasks: seq<Task>, id: TaskId): (r: seq<Task>)
    ensures |r| <= |tasks|
    ensures forall t :: t in r <==> t in tasks && t.id != id
    ensures (forall i :: 0 <= i < |tasks| ==> tasks[i].id != id) ==> r == tasks
  {
    if tasks == [] then []
    else (if tasks[0].id == id then [] else [tasks[0]]) + WithoutTask(tasks[1..], id)
  }

  /** Deleting keeps the order of what remains: filtering distributes over concatenation. */
  lemma {:induction false} WithoutTaskConcat(a: seq<Task>, b: seq<Task>, id: TaskId)
    ensures WithoutTask(a + b, id) == WithoutTask(a, id) + WithoutTask(b, id)
  {
    if a == [] {
      assert a + b == b;
    } else {
      var head := if a[0].id == id then [] else [a[0]];
      assert (a + b)[0] == a[0];
      assert (a + b)[1..] == a[1..] + b;
      WithoutTaskConcat(a[1..], b, id);
      calc {
        WithoutTask(a + b, id);
        head + WithoutTask(a[1..] + b, id);
        head + (WithoutTask(a[1..], id) + WithoutTask(b, id));
        (head + WithoutTask(a[1..], id)) + WithoutTask(b, id);
      }
    }
  }

  /** The task `addTask` prepends: trimmed text, an estimate of at least one, Pending, no sessions. */
  function NewTask(form: TaskForm, freshId: TaskId): (t: Task)
    ensures t.id == freshId && t.status == Pending && t.completedSessions == 0
    ensures t.estimate >= 1 && (form.estimate >= 1 ==> t.estimate == form.estimate)
    ensures t.title == Trim(form.title) && t.description == Trim(form.description)
  {
    Task(freshId, Trim(form.title), Trim(form.description), AtLeastOne(form.estimate), Pending, 0)
  }

  /** `tasks.filter((t) => t.status === st).length`. */
  function CountStatus(tasks: seq<Task>, st: Status): (n: nat)
    ensures n <= |tasks|
  {
    if tasks == [] then 0 else (if tasks[0].status == st then 1 else 0) + CountStatus(tasks[1..], st)
  }

  /**
   * The count is additive over concatenation, and a single task counts one
   * exactly when it has the status: together these pin it to the number of
   * tasks with that status.
   */
  lemma {:induction false} CountStatusConcat(a: seq<Task>, b: seq<Task>, t: Task, st: Status)
    ensures CountStatus(a + b, st) == CountStatus(a, st) + CountStatus(b, st)
    ensures CountStatus([t], st) == if t.status == st then 1 else 0
  {
    if a == [] {
      assert a + b == b;
    } else {
      assert (a + b)[0] == a[0];
      assert (a + b)[1..] == a[1..] + b;
      CountStatusConcat(a[1..], b, t, st);
    }
    assert [t][1..] == [];
  }

  /**
   * No command of the timer or the registry other than delete un-completes a
   * task: starting, crediting and editing never lower the Completed count.
   */
  lemma {:induction false} CompletedNeverDrops(tasks: seq<Task>, id: TaskId, e: TaskForm)
    ensures CountStatus(StartTasks(tasks, id), Completed) == CountStatus(tasks, Completed)
    ensures CountStatus(CreditTasks(tasks, id), Completed) >= CountStatus(tasks, Completed)
    ensures CountStatus(EditTasks(tasks, id, e), Completed) == CountStatus(tasks, Completed)
  {
    if tasks != [] {
      CompletedNeverDrops(tasks[1..], id, e);
      assert StartTasks(tasks, id)[1..] == StartTasks(tasks[1..], id);
      assert CreditTasks(tasks, id)[1..] == CreditTasks(tasks[1..], id);
      assert EditTasks(tasks, id, e)[1..] == EditTasks(tasks[1..], id, e);
    }
  }

  // ---------------------------------------------------------------------------
  // The provider's state and commands
  // ---------------------------------------------------------------------------

  /** The provider: the five state slices and the commands that replace them. */
  class App {
    var tasks: seq<Task>
    var sessions: seq<Session>
    var settings: Settings
    var ui: Ui
    var timer: TimerState

    /** The provider's invariant: its timer slice keeps `TimerInvariant`. */
    predicate Valid()
      reads this
    {
      TimerInvariant(timer)
    }

    /** The provider with its slices as loaded from storage (or their defaults). */
    constructor (tasks0: seq<Task>, sessions0: seq<Session>, settings0: Settings, ui0: Ui, timer0: TimerState)
      ensures tasks == tasks0 && sessions == sessions0 && settings == settings0
      ensures ui == ui0 && timer == timer0
    {
      tasks, sessions, settings, ui, timer := tasks0, sessions0, settings0, ui0, timer0;
    }

    /**
     * `startForTask`: with a known task, start a work interval for it, keeping
     * the cycle count, and promote the task from Pending; otherwise do nothing.
     */
    method StartForTask(taskId: TaskId, now: Instant)
      modifies this
      ensures FindTask(old(tasks), taskId).None? ==> timer == old(timer) && tasks == old(tasks)
      ensures FindTask(old(tasks), taskId).Some? ==>
                var d := ModeDurationSec(settings, Work);
                && timer == TimerState(Work, true, false, Some(now + d * 1000), d, Some(taskId), old(timer).cycleCount, Some(now))
                && tasks == StartTasks(old(tasks), taskId)
      ensures FindTask(old(tasks), taskId).Some? ==> Valid()
      ensures old(Valid()) ==> Valid()
      ensures sessions == old(sessions) && settings == old(settings) && ui == old(ui)
    {
      var task := FindTask(tasks, taskId);
      if task.None? {
        return;
      }
      var duration := ModeDurationSec(settings, Work);
      var endTime := now + duration * 1000;
      timer := TimerState(Work, true, false, Some(endTime), duration, Some(taskId), timer.cycleCount, Some(now));
      tasks := StartTasks(tasks, taskId);
    }

    /** `pause`: a running, unpaused timer becomes paused; nothing else changes. */
    method Pause()
      modifies this`timer
      ensures timer == if CanPause(old(timer)) then old(timer).(isPaused := true) else old(timer)
      ensures old(Valid()) ==> Valid()
    {
      if !timer.isRunning || timer.isPaused {
        return;
      }
      timer := timer.(isPaused := true);
    }

    /**
     * `resume`: a paused timer runs again with its end time moved so that the
     * frozen remaining seconds are what a reading at this instant shows.
     */
    method Resume(now: Instant)
      modifies this`timer
      ensures timer == if CanResume(old(timer))
                       then old(timer).(isPaused := false, endTime := Some(now + old(timer).remaining * 1000))
                       else old(timer)
      ensures CanResume(old(timer)) ==> Ticking(timer) && RemainingSec(timer.endTime.value, now) == timer.remaining
      ensures old(Valid()) ==> Valid()
    {
      if !timer.isRunning || !timer.isPaused {
        return;
      }
      var endTime := now + timer.remaining * 1000;
      timer := timer.(isPaused := false, endTime := Some(endTime));
      RemainingAtSetInstant(now, timer.remaining);
    }

    /** `reset`: back to the idle work timer with no task and no cycles. */
    method Reset()
      modifies this`timer
      ensures timer == IdleTimer
      ensures Valid()
    {
      timer := IdleTimer;
    }

    /** `switchMode`: run the given mode for its full duration; task and cycle count are kept. */
    method SwitchMode(next: Mode, now: Instant)
      modifies this`timer
      ensures var d := ModeDurationSec(settings, next);
              timer == old(timer).(mode := next, isRunning := true, isPaused := false,
                                   endTime := Some(now + d * 1000), remaining := d, lastStart := Some(now))
      ensures Valid()
    {
      var duration := ModeDurationSec(settings, next);
      var endTime := now + duration * 1000;
      timer := timer.(mode := next, isRunning := true, isPaused := false, endTime := Some(endTime),
                      remaining := duration, lastStart := Some(now));
    }

    /**
     * `completeWorkSession`: log one work session from the interval's start to
     * now, newest first, and credit the current task with it.
     */
    method CompleteWorkSession(now: Instant, freshId: string)
      modifies this`sessions, this`tasks
      ensures var start := if IsSetTime(timer.lastStart) then timer.lastStart.value else now;
              sessions == [Session(freshId, timer.currentTaskId, Work, start, now)] + old(sessions)
      ensures tasks == if HasTaskId(timer.currentTaskId) then CreditTasks(old(tasks), timer.currentTaskId.value) else old(tasks)
    {
      var start := if IsSetTime(timer.lastStart) then timer.lastStart.value else now;
      var log := Session(freshId, timer.currentTaskId, Work, start, now);
      sessions := [log] + sessions;
      if HasTaskId(timer.currentTaskId) {
        tasks := CreditTasks(tasks, timer.currentTaskId.value);
      }
    }

    /**
     * `handleTimerEnd`. After work: log and credit the session, stop the timer
     * and ask whether to take the break the cadence picks. After a break:
     * forget the cycles if it was the long one, and start working again.
     */
    method TimerEnd(now: Instant, freshId: string)
      modifies this
      ensures old(timer).mode == Work ==>
                var start := if IsSetTime(old(timer).lastStart) then old(timer).lastStart.value else now;
                && sessions == [Session(freshId, old(timer).currentTaskId, Work, start, now)] + old(sessions)
                && tasks == (if HasTaskId(old(timer).currentTaskId)
                             then CreditTasks(old(tasks), old(timer).currentTaskId.value) else old(tasks))
                && timer == old(timer).(isRunning := false, isPaused := false)
                && ui == old(ui).(showEndPrompt := true,
                                  intendedNextMode := Some(NextBreak(old(timer).cycleCount, settings.longBreakEvery)))
      ensures old(timer).mode != Work ==>
                var d := ModeDurationSec(settings, Work);
                && timer == old(timer).(mode := Work, isRunning := true, isPaused := false,
                                        endTime := Some(now + d * 1000), remaining := d, lastStart := Some(now),
                                        cycleCount := if old(timer).mode == Long then 0 else old(timer).cycleCount)
                && sessions == old(sessions) && tasks == old(tasks) && ui == old(ui)
      ensures !Ticking(timer) <==> old(timer).mode == Work
      ensures settings == old(settings)
      ensures old(Valid()) ==> Valid()
    {
      if timer.mode == Work {
        CompleteWorkSession(now, freshId);
        var nextIsLong := (timer.cycleCount + 1) % AtLeastOne(settings.longBreakEvery) == 0;
        timer := timer.(isRunning := false, isPaused := false);
        ui := ui.(showEndPrompt := true);
        ui := ui.(intendedNextMode := Some(if nextIsLong then Long else Short));
      } else {
        var resetCycle := timer.mode == Long;
        timer := timer.(cycleCount := if resetCycle then 0 else timer.cycleCount);
        SwitchMode(Work, now);
      }
    }

    /**
     * The poll's `update`: while the timer ticks, recompute `remaining` from
     * the end time and report whether the interval is over (the caller then
     * runs `TimerEnd`). Outside that condition the poll is not installed.
     */
    method Poll(now: Instant) returns (expired: bool)
      modifies this`timer
      ensures !Ticking(old(timer)) ==> timer == old(timer) && !expired
      ensures Ticking(old(timer)) ==>
                && timer == old(timer).(remaining := RemainingSec(old(timer).endTime.value, now))
                && (expired <==> timer.remaining == 0)
      ensures expired <==> Ticking(old(timer)) && old(timer).endTime.value - now < 500
      ensures old(Valid()) ==> Valid()
    {
      if !timer.isRunning || !IsSetTime(timer.endTime) || timer.isPaused {
        return false;
      }
      var diff := RemainingSec(timer.endTime.value, now);
      timer := timer.(remaining := diff);
      expired := diff <= 0;
    }

    /** The visibility handler: the same recomputation as the poll, without expiry. */
    method Refresh(now: Instant)
      modifies this`timer
      ensures timer == if Ticking(old(timer))
                       then old(timer).(remaining := RemainingSec(old(timer).endTime.value, now))
                       else old(timer)
      ensures old(Valid()) ==> Valid()
    {
      if timer.isRunning && IsSetTime(timer.endTime) && !timer.isPaused {
        var diff := RemainingSec(timer.endTime.value, now);
        timer := timer.(remaining := diff);
      }
    }

    /**
     * `confirmBreak`: close the prompt, count one more cycle and start the
     * break the prompt offered (a short one if none was recorded).
     */
    method ConfirmBreak(now: Instant)
      modifies this`ui, this`timer
      ensures var intended := if old(ui).intendedNextMode.Some? then old(ui).intendedNextMode.value else Short;
              var d := ModeDurationSec(settings, intended);
              timer == old(timer).(mode := intended, isRunning := true, isPaused := false,
                                   endTime := Some(now + d * 1000), remaining := d, lastStart := Some(now),
                                   cycleCount := old(timer).cycleCount + 1)
      ensures ui == old(ui).(showEndPrompt := false, intendedNextMode := None)
      ensures Valid()
    {
      var intended := if ui.intendedNextMode.Some? then ui.intendedNextMode.value else Short;
      ui := ui.(showEndPrompt := false, intendedNextMode := None);
      timer := timer.(cycleCount := timer.cycleCount + 1);
      SwitchMode(intended, now);
    }

    /** `continueWork`: close the prompt and start working again without counting a cycle. */
    method ContinueWork(now: Instant)
      modifies this`ui, this`timer
      ensures var d := ModeDurationSec(settings, Work);
              timer == old(timer).(mode := Work, isRunning := true, isPaused := false,
                                   endTime := Some(now + d * 1000), remaining := d, lastStart := Some(now))
      ensures ui == old(ui).(showEndPrompt := false, intendedNextMode := None)
      ensures Valid()
    {
      ui := ui.(showEndPrompt := false, intendedNextMode := None);
      SwitchMode(Work, now);
    }

    /** `addTask`: prepend the new task. */
    method AddTask(form: TaskForm, freshId: TaskId)
      modifies this`tasks
      ensures tasks == [NewTask(form, freshId)] + old(tasks)
    {
      tasks := [NewTask(form, freshId)] + tasks;
    }

    /** `updateTask` with the fields of the edit form. */
    method UpdateTask(id: TaskId, updates: TaskForm)
      modifies this`tasks
      ensures tasks == EditTasks(old(tasks), id, updates)
    {
      tasks := EditTasks(tasks, id, updates);
    }

    /** `deleteTask`: drop the tasks with that id and reset the timer if it was working on it. */
    method DeleteTask(id: TaskId)
      modifies this`tasks, this`timer
      ensures tasks == WithoutTask(old(tasks), id)
      ensures timer == if old(timer).currentTaskId == Some(id) then IdleTimer else old(timer)
      ensures old(Valid()) ==> Valid()
    {
      tasks := WithoutTask(tasks, id);
      if timer.currentTaskId == Some(id) {
        Reset();
      }
    }
  }
}
