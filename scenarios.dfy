/**
 * Whole-provider runs of the timer, checked against the command contracts
 * alone: a first pomodoro, pause and resume, the break
 * cadence, skipping a break, and deleting the task being timed.
 */
module Scenarios {
  import opened Nullable
  import opened AppProvider

  const Write := Task("t1", "Write report", "", 1, Pending, 0)
  const QuietUi := Ui(false, false, false, None)

  /**
   * With 25-minute work sessions, starting at t = 1000 and letting the poll run
   * out 1500 s later logs one work session over exactly that interval,
   * completes the one-pomodoro task, stops the timer and offers a short break
   * (cycle 0 + 1 is not a multiple of 4). The next poll then finds nothing to do.
   */
  method FirstPomodoro() returns (log: seq<Session>, tasks: seq<Task>, ui: Ui, timer: TimerState, expiredAgain: bool)
    ensures log == [Session("s1", Some("t1"), Work, 1000, 1501000)]
    ensures tasks == [Write.(completedSessions := 1, status := Completed)]
    ensures ui.showEndPrompt && ui.intendedNextMode == Some(Short)
    ensures !timer.isRunning && timer.remaining == 0 && timer.cycleCount == 0
    ensures !expiredAgain
  {
    var app := new App([Write], [], DefaultSettings, QuietUi, IdleTimer);
    app.StartForTask("t1", 1000);
    assert app.timer.endTime == Some(1501000);
    var expired := app.Poll(1501000);
    assert expired;
    app.TimerEnd(1501000, "s1");
    expiredAgain := app.Poll(1502000);
    log, tasks, ui, timer := app.sessions, app.tasks, app.ui, app.timer;
  }

  /**
   * Pausing freezes the remaining seconds; resuming much later and reading
   * the timer at once shows the same seconds again.
   */
  method PauseThenResume() returns (beforePause: nat, afterResume: nat)
    ensures beforePause == afterResume == 1440
  {
    var app := new App([Write], [], DefaultSettings, QuietUi, IdleTimer);
    app.StartForTask("t1", 1000);
    var expired := app.Poll(61000);
    beforePause := app.timer.remaining;
    app.Pause();
    expired := app.Poll(5000000);
    assert !expired && app.timer.remaining == beforePause;
    app.Resume(9000000);
    expired := app.Poll(9000000);
    afterResume := app.timer.remaining;
  }

  /**
   * With a long break every 4 cycles, a work session ending at cycle 3 leads,
   * once the break is confirmed, to a long break at cycle 4; when that break
   * ends the cycle count is back to 0 and work restarts on its own.
   */
  method LongBreakAfterFourth() returns (onBreak: TimerState, backAtWork: TimerState)
    ensures onBreak.mode == Long && onBreak.cycleCount == 4 && onBreak.isRunning
    ensures onBreak.remaining == 15 * 60
    ensures backAtWork.mode == Work && backAtWork.cycleCount == 0 && backAtWork.isRunning
    ensures backAtWork.remaining == 25 * 60
  {
    var running := TimerState(Work, true, false, Some(2000), 1, Some("t1"), 3, Some(1000));
    var app := new App([Write], [], DefaultSettings, QuietUi, running);
    app.TimerEnd(2000, "s1");
    app.ConfirmBreak(2000);
    onBreak := app.timer;
    var expired := app.Poll(2000 + 15 * 60 * 1000);
    assert expired;
    app.TimerEnd(2000 + 15 * 60 * 1000, "s2");
    backAtWork := app.timer;
  }

  /** At cycle 2 the cadence of 4 offers a short break, and a finished short break keeps the cycle count. */
  method ShortBreakKeepsCycles() returns (offered: Option<Mode>, backAtWork: TimerState)
    ensures offered == Some(Short)
    ensures backAtWork.mode == Work && backAtWork.cycleCount == 3 && backAtWork.isRunning
  {
    var running := TimerState(Work, true, false, Some(2000), 1, Some("t1"), 2, Some(1000));
    var app := new App([Write], [], DefaultSettings, QuietUi, running);
    app.TimerEnd(2000, "s1");
    offered := app.ui.intendedNextMode;
    app.ConfirmBreak(2000);
    var expired := app.Poll(2000 + 5 * 60 * 1000);
    assert expired;
    app.TimerEnd(2000 + 5 * 60 * 1000, "s2");
    backAtWork := app.timer;
  }

  /** Skipping the break starts work at once and does not advance the cadence. */
  method SkipBreak() returns (timer: TimerState, ui: Ui)
    ensures timer.mode == Work && timer.isRunning && timer.cycleCount == 2
    ensures !ui.showEndPrompt && ui.intendedNextMode.None?
  {
    var running := TimerState(Work, true, false, Some(2000), 1, Some("t1"), 2, Some(1000));
    var app := new App([Write], [], DefaultSettings, QuietUi, running);
    app.TimerEnd(2000, "s1");
    app.ContinueWork(2000);
    timer, ui := app.timer, app.ui;
  }

  /** Deleting the task being timed leaves no such task and an idle timer with no task. */
  method DeleteTimedTask() returns (tasks: seq<Task>, timer: TimerState)
    ensures tasks == [] && timer == IdleTimer
  {
    var app := new App([Write], [], DefaultSettings, QuietUi, IdleTimer);
    app.StartForTask("t1", 1000);
    app.DeleteTask("t1");
    tasks, timer := app.tasks, app.timer;
  }
}
