# Pomodoro timer, session state machine and task registry

This project models the core of a single-user Pomodoro web app in Dafny. The
app keeps five state slices: tasks, the session log, settings, ui flags and
the timer. Each command of the application provider updates them in a fixed
order. The model covers:

- **The timer and session state machine** (`AppProvider`, class `App`). The
  commands are start-for-task, pause, resume, reset, switch-mode, the poll's
  recomputation of the remaining seconds from the absolute end time, the
  visibility refresh, the end-of-interval handler, confirm-break and
  continue-work. The state is a `TimerState` record plus the `ui` slice's
  end-of-session prompt and intended break. Each command is a method whose
  postcondition gives the whole new state. `Valid()` is the timer invariant
  (`TimerInvariant`): a paused timer is running, and a running timer has an
  end time. Every command preserves it, and under it the poll runs exactly
  when the Pause button shows (`PollRunsIffPausable`).
- **The task registry.** Add prepends, update merges by id, and delete filters
  by id and resets a timer that was working on that task. These are pure
  sequence transforms (`StartTasks`, `CreditTasks`, `EditTasks`,
  `WithoutTask`, `NewTask`), and the class methods apply them.
- **The view helpers.** These are the `mm:ss` clock face and its read-back,
  the mode label, and the choice of control button (`TimerPanel`). Then the
  clamped settings record with save and close (`SettingsModal`). Then status
  totals, the progress percentage, the Start-button rule and the add/edit
  form handlers (`TaskList`). Last, the today and week pomodoro counts and
  completed-task counts (`StatsPanel`).
- **Example runs** (`Scenarios`). A first pomodoro, pause and resume, the
  long-break cadence, a short break, skipping a break, and deleting the timed
  task. Each is a client of `App` that is verified against the command
  contracts alone.

Modelling choices:

- Wall-clock time (`Date.now()`) is a parameter `now` of type `Instant`, a
  positive number of milliseconds. Within one command every reading of the
  clock is the same instant.
- Fresh identifiers (`uid()`) are a parameter.
- Numbers are unbounded integers. JavaScript's `Math.round(x)` is
  `floor(x + 1/2)`, written as `(2a + b) / (2b)` with floor division.
- JavaScript truthiness is kept where the code tests it. An end time or start
  time of `0` counts as unset (`IsSetTime`), and a current task id of `''`
  counts as no task (`HasTaskId`).
- The local time zone of the stats panel is a fixed offset from UTC.
- The stats panel recomputes its figures only when the sessions or the tasks
  change, so `StatsOf`'s `now` stands for the instant of the last such change;
  after midnight "today" can lag until the next change.

Behaviours of the code worth knowing:

- `startForTask` has no guard on the timer's state. It restarts a work
  interval from any state, including a running one.
- `confirmBreak` and `continueWork` do not check that the end-of-session
  prompt is showing.
- Pausing keeps `endTime`, and a finished work session keeps its `endTime`.
  So the timer invariant (`TimerInvariant`) is only that a paused timer is
  running and a running timer has an end time; an end time can outlive the
  interval.
- The remaining time is `max(0, round((endTime - now) / 1000))`, rounded to
  the nearest second. So an interval is over once less than half a second
  remains (`RemainingSec`).
- Editing a task neither trims its title nor clamps its estimate. Only adding
  a task does both, so an edited estimate can be below one.

## Model

| member | source | states |
|---|---|---|
| AppProvider.ModeDurationSec | src/components/AppProvider.jsx:152-156 | a mode lasts a whole number of minutes, at least one minute (60 s); minutes below one count as one |
| AppProvider.RemainingSec | src/components/AppProvider.jsx:97 | the recomputed remaining seconds are never negative, are zero exactly when less than half a second is left, and are otherwise the end-time distance rounded to the nearest second |
| AppProvider.RemainingNonIncreasing | src/components/AppProvider.jsx:95-98 | a later reading never shows more remaining seconds than an earlier one |
| AppProvider.RemainingAtSetInstant | src/components/AppProvider.jsx:172-176 | a reading taken at the instant an end time is set from r seconds shows r again |
| AppProvider.RemainingAfterAbsence | src/components/AppProvider.jsx:116-124 | after b whole seconds away, the refreshed remaining is the previous remaining minus b, floored at zero |
| AppProvider.NextBreak | src/components/AppProvider.jsx:201 | the break after a work session is long iff (cycleCount + 1) mod max(1, longBreakEvery) is 0, and is never work |
| AppProvider.LongBreakCadence | src/components/AppProvider.jsx:201 | with a cadence of n, the session completing cycle k·n leads to a long break and the next n−1 lead to short ones |
| AppProvider.FindTask | src/components/AppProvider.jsx:159 | find returns nothing iff no task has the id, and otherwise the first task with that id |
| AppProvider.CurrentTask | src/components/AppProvider.jsx:130 | the current task is a listed task carrying the timer's task id, and it is found whenever such a task exists |
| AppProvider.StartTasks | src/components/AppProvider.jsx:164 | starting keeps length, order and every field except status; a status changes iff the task has the id and is Pending, and then becomes In Progress |
| AppProvider.CreditTasks | src/components/AppProvider.jsx:192 | the credited task gains exactly one session and is Completed iff the new count reaches its estimate or it already was; no other task or field changes |
| AppProvider.EditTasks | src/components/AppProvider.jsx:231-233 | the tasks with the id take the form's title, description and estimate and keep id, status and sessions; the others are unchanged and the length is kept |
| AppProvider.WithoutTask | src/components/AppProvider.jsx:236 | after delete, exactly the tasks without that id remain; a list without the id is returned unchanged |
| AppProvider.WithoutTaskConcat | src/components/AppProvider.jsx:236 | delete distributes over concatenation, so the remaining tasks keep their order |
| AppProvider.NewTask | src/components/AppProvider.jsx:227 | a new task has the fresh id, trimmed title and description, estimate at least one (kept if already at least one), status Pending and no sessions |
| AppProvider.CountStatus | src/components/TaskList.jsx:13-15 | a status count never exceeds the number of tasks |
| AppProvider.CountStatusConcat | src/components/TaskList.jsx:13-15 | the count is additive over concatenation and one task counts one iff it has the status, so it is the number of tasks with that status |
| AppProvider.CompletedNeverDrops | src/components/AppProvider.jsx:188-194 | starting and editing keep the Completed count and crediting never lowers it |
| AppProvider.App.constructor | src/components/AppProvider.jsx:67-82 | the provider holds the five slices as loaded |
| AppProvider.App.StartForTask | src/components/AppProvider.jsx:158-165 | an unknown id changes nothing; otherwise the timer runs work for the full work duration ending at now + duration·1000, for that task, unpaused, keeping cycleCount, and only that task is promoted from Pending |
| AppProvider.App.Pause | src/components/AppProvider.jsx:167-170 | pause sets isPaused only when running and unpaused, and is a no-op otherwise |
| AppProvider.App.Resume | src/components/AppProvider.jsx:172-176 | resume acts only when running and paused; it moves endTime to now + remaining·1000 so that a reading at that instant shows the frozen remaining |
| AppProvider.App.Reset | src/components/AppProvider.jsx:178-180 | reset always yields the idle record: work mode, stopped, no end time, 0 remaining, no task, 0 cycles |
| AppProvider.App.SwitchMode | src/components/AppProvider.jsx:182-186 | the given mode runs for its full duration from now; task and cycle count are kept |
| AppProvider.App.CompleteWorkSession | src/components/AppProvider.jsx:188-194 | exactly one work entry is prepended, covering lastStart (or now) to now with the current task id, and the current task, if any, is credited |
| AppProvider.App.TimerEnd | src/components/AppProvider.jsx:196-211 | after work: log and credit, stop the timer (so the poll stops), show the prompt and record the cadence's break; after a break: no log, cycleCount reset to 0 only after a long break, and work restarts |
| AppProvider.App.Poll | src/components/AppProvider.jsx:92-104 | outside running-unpaused-with-end-time nothing changes; otherwise remaining is recomputed from the end time and expiry is reported iff it is 0 |
| AppProvider.PollRunsIffPausable | src/components/AppProvider.jsx:93 | under the timer invariant, the poll runs (running, end time set, not paused) exactly when the timer can be paused, which is when the Pause button shows |
| AppProvider.App.Refresh | src/components/AppProvider.jsx:116-124 | on regaining visibility, the same recomputation as the poll without expiry |
| AppProvider.App.ConfirmBreak | src/components/AppProvider.jsx:213-218 | confirming clears the prompt, adds exactly one cycle and runs the intended break (short when none was recorded) |
| AppProvider.App.ContinueWork | src/components/AppProvider.jsx:220-223 | continuing clears the prompt and runs work without changing cycleCount |
| AppProvider.App.AddTask | src/components/AppProvider.jsx:226-229 | exactly one new task is prepended |
| AppProvider.App.UpdateTask | src/components/AppProvider.jsx:231-233 | the task list becomes the edited list |
| AppProvider.App.DeleteTask | src/components/AppProvider.jsx:235-238 | the tasks with the id are removed, and the timer is reset iff it referred to that id |
| JsText.Trim | src/components/TaskList.jsx:21 | trim returns the slice between leading and trailing white space and neither starts nor ends with white space |
| JsText.TrimEmptyIffAllSpace | src/components/TaskList.jsx:21 | a title trims to empty iff it is all white space |
| JsText.Decimal | src/components/TimerPanel.jsx:8-9 | toString of a non-negative integer is decimal digits without a leading zero, one digit below 10 and at most two below 100 |
| JsText.PadStart | src/components/TimerPanel.jsx:8-9 | padStart reaches the width by prefixing fill characters and keeps the string as a suffix |
| TimerPanel.Field | src/components/TimerPanel.jsx:8-9 | a clock field is all digits, at least two, exactly two below 100, has a leading zero only below 10, and reads back as its number |
| TimerPanel.FormatTime | src/components/TimerPanel.jsx:6-11 | the clock face is minutes, colon and two seconds characters, five characters below 100 minutes, and the minutes start with 0 only below ten minutes |
| TimerPanel.FormatTimeReadBack | src/components/TimerPanel.jsx:7-10 | both fields are digits, seconds are below 60, and mm·60 + ss gives the input, or 0 for negative input |
| TimerPanel.FormatTimeInjective | src/components/TimerPanel.jsx:6-11 | distinct non-negative second counts give distinct clock faces |
| TimerPanel.StatusLabel | src/components/TimerPanel.jsx:16 | the label is Focus exactly for work, Short Break exactly for a short break and Long Break exactly for a long break |
| TimerPanel.StatusLabelDistinct | src/components/TimerPanel.jsx:16 | the labels Focus, Short Break and Long Break tell the three modes apart |
| TimerPanel.ControlFor | src/components/TimerPanel.jsx:41-57 | Start shows iff stopped, enabled iff the current task exists and then aimed at its id; Resume iff running and paused; Pause iff running and unpaused |
| SettingsModal.Clamped | src/components/SettingsModal.jsx:12-18 | each saved number is max(1, input), so at least one and unchanged if already at least one; sound is kept; the record holds exactly the five settings |
| SettingsModal.ClampedFixedPoints | src/components/SettingsModal.jsx:13-16 | saving changes the form iff a number is below one, and saving twice equals saving once |
| SettingsModal.SavedSettingsDriveTimer | src/components/SettingsModal.jsx:13-16 | after a save, every mode lasts exactly its saved minutes and the cadence divides by the saved longBreakEvery |
| SettingsModal.Modal.constructor | src/components/SettingsModal.jsx:7 | the form starts as the current settings |
| SettingsModal.Modal.SetNumber | src/components/SettingsModal.jsx:32-35 | a number input sets that one form field |
| SettingsModal.Modal.SetSound | src/components/SettingsModal.jsx:37 | the checkbox sets the form's sound flag |
| SettingsModal.Modal.Close | src/components/SettingsModal.jsx:9 | close hides the modal and keeps every other ui flag |
| SettingsModal.Modal.Save | src/components/SettingsModal.jsx:11-20 | save stores the clamped form, so every number is at least one, then hides the modal and keeps the other ui flags |
| TaskList.TotalsOf | src/components/TaskList.jsx:11-17 | total is the number of tasks, each count is that status's filter count, and pending + in progress + completed equals total |
| TaskList.TotalsPartition | src/components/TaskList.jsx:13-15 | every task has exactly one of the three statuses, so the three status counts of any list add up to its length |
| TaskList.Progress | src/components/TaskList.jsx:128-130 | the percentage lies in 0..100 |
| TaskList.ProgressBounds | src/components/TaskList.jsx:129 | 0 with nothing done, 100 once done reaches max(1, estimate); below 100 it is the percentage nearest to 100·done/max(1, estimate), and it is 100 only when that ratio rounds to 100 or more |
| TaskList.ProgressMonotone | src/components/TaskList.jsx:129 | more sessions done never lower the percentage |
| TaskList.StartDisabled | src/components/TaskList.jsx:111 | a Start button is never disabled while the timer is stopped or on a break, nor for the timed task itself |
| TaskList.OneStartableDuringWork | src/components/TaskList.jsx:111 | during a running work interval at most one Start button is enabled, the timed task's |
| TaskList.EnabledStartKeepsWorkTask | src/components/TaskList.jsx:111 | during a running work interval, only the timed task's Start button is enabled |
| TaskList.TaskListView.constructor | src/components/TaskList.jsx:7-9 | both forms start as title '', description '', estimate 1, and nothing is being edited |
| TaskList.TaskListView.SetForm | src/components/TaskList.jsx:43-63 | the add form takes the typed values |
| TaskList.TaskListView.Submit | src/components/TaskList.jsx:19-24 | a title of only white space adds nothing; otherwise exactly one task is added from the form and the form resets |
| TaskList.TaskListView.BeginEdit | src/components/TaskList.jsx:26-29 | editing starts on that task's id with its title, description and estimate |
| TaskList.TaskListView.SetEditForm | src/components/TaskList.jsx:80-84 | the edit form takes the typed values |
| TaskList.TaskListView.SaveEdit | src/components/TaskList.jsx:31-35 | a blank title changes nothing and editing continues; otherwise the task takes the edit form and editing ends |
| TaskList.TaskListView.CancelEdit | src/components/TaskList.jsx:87 | cancel ends editing |
| StatsPanel.StartOfDay | src/components/StatsPanel.jsx:4-8 | start of day is a local midnight at or before the instant and less than a day before it |
| StatsPanel.IsSameDay | src/components/StatsPanel.jsx:10-12 | two instants are on the same day iff they have the same local day number (whole days since the epoch, after the UTC offset) |
| StatsPanel.WeekStart | src/components/StatsPanel.jsx:19-20 | the week window starts exactly 6·86 400 000 ms before the start of today, less than seven days back |
| StatsPanel.TodaySessions | src/components/StatsPanel.jsx:21 | today's list holds each logged work session that ended on today's date exactly as often as it is logged and nothing else, so its length is the number of such entries |
| StatsPanel.WeekSessions | src/components/StatsPanel.jsx:22 | the week's list holds each logged work session that ended since the week start exactly as often as it is logged and nothing else |
| StatsPanel.TodayIsInWeek | src/components/StatsPanel.jsx:21-22 | a session counted today is also counted this week |
| StatsPanel.TodayAtMostWeek | src/components/StatsPanel.jsx:21-22 | today's pomodoro count is at most the week's |
| StatsPanel.TasksCompletedToday | src/components/StatsPanel.jsx:23 | completed-today is at most the all-time Completed count |
| StatsPanel.TasksCompletedTodayConcat | src/components/StatsPanel.jsx:23 | completed-today is additive over the task list and one task counts one iff it is Completed and has a work session today, so it is the number of such tasks |
| StatsPanel.StatsOf | src/components/StatsPanel.jsx:17-28 | the four figures are the lengths of today's and the week's session lists, the completed-today count and the all-time Completed count; today ≤ week ≤ number of sessions and completed today ≤ completed all time ≤ number of tasks |
| Scenarios.FirstPomodoro | src/components/AppProvider.jsx:188-204 | 25-minute work from t=1000 logs one work session over [1000, 1501000], completes a one-pomodoro task, stops, offers a short break, and a second poll does nothing |
| Scenarios.PauseThenResume | src/components/AppProvider.jsx:167-176 | the remaining seconds before a pause equal those read right after a much later resume |
| Scenarios.LongBreakAfterFourth | src/components/AppProvider.jsx:201-218 | cycle 3 with cadence 4 confirms into a long break at cycle 4, after which cycles reset to 0 and work restarts |
| Scenarios.ShortBreakKeepsCycles | src/components/AppProvider.jsx:205-209 | cycle 2 offers a short break, and the short break's end keeps the cycle count and restarts work |
| Scenarios.SkipBreak | src/components/AppProvider.jsx:220-223 | continuing work does not advance the cycle count and clears the prompt |
| Scenarios.DeleteTimedTask | src/components/AppProvider.jsx:235-238 | deleting the timed task leaves the idle timer with no task |

## Left out

- Persistence in localStorage (`loadLS`, `saveLS`, `useLocalStorageState`) is I/O. The slices are taken as already loaded (`App.constructor`). `loadLS` falls back to the default when a key is absent or its data is corrupt.
- Scheduling is not modelled: `setInterval`, `clearInterval`, the effect's cleanup and the `visibilitychange` listener. `App.Poll` is one call of the poll's `update`, and `App.Refresh` is one call of the visibility handler.
- App.Poll: reports expiry instead of calling the end handler itself. The caller then runs `App.TimerEnd` at the same instant, as the poll does and as the scenarios do.
- Within one command, every `Date.now()` reading is the same instant.
- The end handler and the poll are closures. They may read settings captured when the poll effect last ran. The model reads the current settings.
- `playBeep` plays a sound through WebAudio with floating-point gain ramps. It changes no state.
- `uid()` is random and clock based. The fresh id is a parameter, and ids are not proved unique.
- `applyDarkClass`, the header's dark-mode and settings toggles, and the page layout are DOM and layout work.
- Rendering is not modelled: JSX, animation, icons, the mode colours, and the list of tasks. So are two render guards: the modal renders nothing when `ui.showSettings` is false, and the end-of-session prompt shows exactly when `ui.showEndPrompt` is set. The model keeps both flags but states nothing else about them.
- `Number()` coercion and `NaN` are not modelled: numeric inputs are integers. With NaN, `Math.max(1, NaN)` would store NaN.
- `ProgressBar` computes in floating point. The model rounds the exact ratio, so it can differ at exact half-percent boundaries.
- `startOfDay` uses the browser's time zone. The model uses a fixed UTC offset, so daylight-saving changes are left out.
- `updateTask` accepts any partial record. Its one caller passes the edit form's title, description and estimate, and that is what the model accepts.
- Mode and status values outside the three known strings cannot be expressed. The source's "any other mode" branch is the long-break case.
- TasksCompletedToday: its own contract is the upper bound only; the exact count is stated by `TasksCompletedTodayConcat`, because an exact count inside the recursive function's contract would have to restate its body.
